// The IV update machine (mesh/node/meshx_iv_index.c) as step functions, and its clock.

module IvIndex {

  datatype IvState = Normal | InProgress

  /** pending: meshx_iv_update_state_transit_pending. */
  datatype Iv = Iv(index: nat, state: IvState, tick: nat, pending: bool)

  const TICK_96H: nat := 288
  const TICK_144H: nat := 432
  const TICK_48W: nat := 24192
  const MAX_DIFF: nat := 42

  /** A tick is 20 minutes. */
  function Hours(h: nat): nat { 3 * h }

  datatype Outcome = Done | Invalid | TooFar | TooEarly

  /** clear: the step also clears every sequence counter. */
  datatype IvStep = IvStep(iv: Iv, clear: bool, outcome: Outcome)

  function NormalBit(s: IvState): nat { if s.Normal? then 1 else 0 }

  /** Counts the steps of the IV update procedure. */
  function Clock(v: Iv): nat { 2 * v.index + NormalBit(v.state) }

  /** meshx_iv_index_tx_get */
  function TxIv(v: Iv): int { if v.state.InProgress? then v.index - 1 else v.index }

  predicate IvValid(v: Iv) { v.state.InProgress? ==> v.index > 0 }

  /** meshx_iv_index_async_handle_timeout: after 144 hours the node returns to Normal, or defers that while
      transport is busy. The counters are cleared exactly when the transmit IV rises. */
  function Tick(v: Iv, busy: bool): (r: IvStep)
    ensures IvValid(v) ==> IvValid(r.iv) && (r.clear <==> TxIv(r.iv) > TxIv(v))
    ensures var due := v.state.InProgress? && v.tick + 1 >= TICK_144H;
            && Clock(r.iv) == Clock(v) + (if due && !busy then 1 else 0)
            && (r.iv.pending <==> v.pending || (due && busy))
  {
    var t := if v.tick < TICK_48W then v.tick + 1 else v.tick;
    if t >= TICK_144H && v.state.InProgress? then
      if busy then IvStep(v.(tick := t, pending := true), false, Done)
      else IvStep(v.(state := Normal, tick := 0), true, Done)
    else IvStep(v.(tick := t), false, Done)
  }

  function Distance(v: Iv, index: nat, state: IvState): int {
    2 * (index - v.index) + NormalBit(state) - NormalBit(v.state)
  }

  predicate Acts(v: Iv, index: nat, state: IvState) {
    v.index <= index <= v.index + MAX_DIFF && 0 < Distance(v, index, state)
    && Distance(v, index, state) * TICK_96H <= v.tick
  }

  predicate Deferred(v: Iv, index: nat, state: IvState, busy: bool) {
    Distance(v, index, state) == 1 && state.Normal? && busy
  }

  /** meshx_iv_index_update. The message is acted on exactly when it is ahead of the clock, at most 42 indexes
      away and not before its time; the clock then moves forward by exactly its distance unless that is
      deferred. The counters are cleared exactly when the transmit IV rises. A jump of 2^31 or more is shifted as a negative C integer, which C leaves undefined. */
  function Update(v: Iv, index: nat, state: IvState, busy: bool): (r: IvStep)
    requires index < v.index + 0x8000_0000
    ensures IvValid(v) ==> IvValid(r.iv) && (r.clear <==> TxIv(r.iv) > TxIv(v))
    ensures Clock(r.iv) == Clock(v) + (if Acts(v, index, state) && !Deferred(v, index, state, busy)
                                       then Distance(v, index, state) else 0)
    ensures Acts(v, index, state) && !Deferred(v, index, state, busy) ==> r.iv.index == index && r.iv.state == state
    ensures Acts(v, index, state) && Deferred(v, index, state, busy) ==> r.iv == v.(pending := true)
    ensures !Acts(v, index, state) ==> r.iv == v
  {
    var d := Distance(v, index, state);
    if v.index > index then IvStep(v, false, Invalid)
    else if index - v.index > MAX_DIFF then IvStep(v, false, TooFar)
    else if d <= 0 then IvStep(v, false, Done)
    else if v.tick < d * TICK_96H then IvStep(v, false, TooEarly)
    else if d == 1 then
      if state.Normal? then
        if busy then IvStep(v.(index := index, pending := true), false, Done)
        else IvStep(v.(index := index, state := Normal, tick := 0), true, Done)
      else IvStep(v.(index := index, state := InProgress), false, Done)
    else IvStep(v.(index := index, state := state, tick := TICK_96H), true, Done)
  }

  /** The answer names the cause of a refusal; a refused message changes nothing. */
  lemma UpdateOutcome(v: Iv, index: nat, state: IvState, busy: bool)
    requires index < v.index + 0x8000_0000
    ensures var r, ahead := Update(v, index, state, busy), Distance(v, index, state);
            && (r.outcome.Invalid? <==> index < v.index)
            && (r.outcome.TooFar? <==> index > v.index + MAX_DIFF)
            && (r.outcome.TooEarly? <==> v.index <= index <= v.index + MAX_DIFF && ahead > 0 && v.tick < ahead * TICK_96H)
            && (r.outcome != Done ==> r.iv == v && !r.clear)
  {
  }

  /** The deferred transition made when a transmit task finishes (mesh/transport/meshx_lower_trans.c). */
  function TaskFinished(v: Iv): Iv { if v.pending then v.(state := Normal) else v }

  // ---------- the clock ----------

  datatype IvEvent = TickEvent(busy: bool) | UpdateEvent(index: nat, state: IvState, busy: bool) | FinishEvent

  function Apply(v: Iv, e: IvEvent): Iv {
    match e
    case TickEvent(busy) => Tick(v, busy).iv
    case UpdateEvent(index, state, busy) =>
      if index < v.index + 0x8000_0000 then Update(v, index, state, busy).iv else v
    case FinishEvent => TaskFinished(v)
  }

  function Run(v: Iv, es: seq<IvEvent>): Iv
    decreases |es|
  {
    if es == [] then v else Run(Apply(v, es[0]), es[1..])
  }

  /** Over every run the clock and the transmit IV never go back, the transmit IV never wraps below zero,
      and the pending flag, once set, stays set. */
  lemma {:induction false} ClockNeverGoesBack(v: Iv, es: seq<IvEvent>)
    requires IvValid(v)
    ensures var w := Run(v, es);
            && IvValid(w) && Clock(w) >= Clock(v) && TxIv(w) >= TxIv(v) && TxIv(w) >= 0
            && (v.pending ==> w.pending)
    decreases |es|
  {
    if es != [] {
      assert IvValid(Apply(v, es[0])) && Clock(Apply(v, es[0])) >= Clock(v) && TxIv(Apply(v, es[0])) >= TxIv(v);
      ClockNeverGoesBack(Apply(v, es[0]), es[1..]);
    }
  }

  // ---------- at least 96 hours In Progress ----------

  // Mesh Profile section 3.10.5 keeps a node In Progress for at least 96 hours.

  function Ticks(es: seq<IvEvent>): nat {
    if es == [] then 0 else (if es[0].TickEvent? then 1 else 0) + Ticks(es[1..])
  }

  /** A node In Progress is still in that very state after every run of at most k ticks, with whatever messages and
      finished tasks between them. */
  ghost predicate StaysFor(v: Iv, k: nat) { forall es :: Ticks(es) <= k ==> Clock(Run(v, es)) == Clock(v) }

  lemma StepStays(v: Iv, e: IvEvent)
    requires IvValid(v) && v.state.InProgress? && !v.pending && v.tick + (if e.TickEvent? then 1 else 0) < TICK_96H
    ensures var w := Apply(v, e);
            Clock(w) == Clock(v) && w.state.InProgress? && !w.pending && w.tick == v.tick + (if e.TickEvent? then 1 else 0)
  {
  }

  lemma {:induction false} RunStays(v: Iv, es: seq<IvEvent>)
    requires IvValid(v) && v.state.InProgress? && !v.pending && v.tick + Ticks(es) < TICK_96H
    ensures Clock(Run(v, es)) == Clock(v)
    decreases |es|
  {
    if es != [] {
      StepStays(v, es[0]);
      hide Apply;
      RunStays(Apply(v, es[0]), es[1..]);
    }
  }

  function ManyTicks(k: nat): (es: seq<IvEvent>)
    ensures Ticks(es) == k
  {
    if k == 0 then [] else [TickEvent(false)] + ManyTicks(k - 1)
  }

  /** Some run of at most k ticks ends the state: the ticks that are missing, then one message. */
  lemma {:induction false} CanEnd(v: Iv, k: nat) returns (es: seq<IvEvent>)
    requires IvValid(v) && v.state.InProgress? && (v.pending || v.tick + k >= TICK_96H)
    ensures Ticks(es) <= k && Clock(Run(v, es)) != Clock(v)
    decreases k
  {
    if v.pending {
      es := [FinishEvent];
      assert Run(v, es) == Run(TaskFinished(v), es[1..]);
    } else if v.tick >= TICK_96H {
      es := [UpdateEvent(v.index, Normal, false)];
      assert Run(v, es) == Run(Update(v, v.index, Normal, false).iv, es[1..]);
    } else {
      var w := Apply(v, TickEvent(false));
      var rest := CanEnd(w, k - 1);
      es := [TickEvent(false)] + rest;
      assert es[1..] == rest;
    }
  }

  /** The state is sure to last through k ticks if and only if the pending flag is clear and the tick count, which
      entering the state does not reset, leaves k ticks below 96 hours. */
  lemma StaysForIff(v: Iv, k: nat)
    requires IvValid(v) && v.state.InProgress?
    ensures StaysFor(v, k) <==> !v.pending && v.tick + k < TICK_96H
  {
    if !v.pending && v.tick + k < TICK_96H {
      forall es | Ticks(es) <= k ensures Clock(Run(v, es)) == Clock(v) { RunStays(v, es); }
    } else {
      var es := CanEnd(v, k);
    }
  }

  /** The whole 96 hours, that is through 287 ticks: only from a tick count of zero, with the flag clear. */
  lemma StaysFor96HoursIff(v: Iv)
    requires IvValid(v) && v.state.InProgress?
    ensures StaysFor(v, TICK_96H - 1) <==> !v.pending && v.tick == 0
  {
    StaysForIff(v, TICK_96H - 1);
  }

  /** But a message that takes a node into an In Progress state leaves a tick count of at least 96 hours, whatever
      the node's state before: the state can end at once. The promise is never kept. */
  lemma EveryEntryCanEndAtOnce(v: Iv, index: nat, state: IvState, busy: bool)
    requires IvValid(v) && index < v.index + 0x8000_0000
    requires var w := Update(v, index, state, busy).iv; w.state.InProgress? && Clock(w) != Clock(v)
    ensures var w := Update(v, index, state, busy).iv; w.tick >= TICK_96H && IvValid(w) && !StaysFor(w, 0)
  {
    StaysForIff(Update(v, index, state, busy).iv, 0);
  }

  /** One such run: the node enters In Progress for IV index 7 with the flag clear, and the next message, or the next
      20-minute tick, ends that state. */
  lemma EndsWithFlagClear()
    ensures var v := Iv(6, Normal, TICK_48W, false);
            var w := Apply(v, UpdateEvent(7, InProgress, false));
            && w.state.InProgress? && !w.pending
            && Apply(w, UpdateEvent(7, Normal, false)).state.Normal? && Apply(w, TickEvent(false)).state.Normal?
  {
  }

  // ---------- at least 96 hours in Normal ----------

  lemma StepStaysNormal(v: Iv, e: IvEvent)
    requires v.state.Normal? && v.tick + (if e.TickEvent? then 1 else 0) < TICK_96H
    ensures var w := Apply(v, e);
            w.index == v.index && w.state.Normal? && w.tick == v.tick + (if e.TickEvent? then 1 else 0)
  {
  }

  lemma {:induction false} RunStaysNormal(v: Iv, es: seq<IvEvent>)
    requires v.state.Normal? && v.tick + Ticks(es) < TICK_96H
    ensures Clock(Run(v, es)) == Clock(v)
    decreases |es|
  {
    if es != [] {
      StepStaysNormal(v, es[0]);
      hide Apply;
      RunStaysNormal(Apply(v, es[0]), es[1..]);
    }
  }

  /** Some run of at most k ticks leaves it: the ticks that are missing, then the message that starts an update. */
  lemma {:induction false} CanLeave(v: Iv, k: nat) returns (es: seq<IvEvent>)
    requires v.state.Normal? && v.tick + k >= TICK_96H
    ensures Ticks(es) <= k && Clock(Run(v, es)) != Clock(v)
    decreases k
  {
    if v.tick >= TICK_96H {
      es := [UpdateEvent(v.index + 1, InProgress, false)];
      assert Run(v, es) == Run(Update(v, v.index + 1, InProgress, false).iv, es[1..]);
    } else {
      var rest := CanLeave(Apply(v, TickEvent(false)), k - 1);
      es := [TickEvent(false)] + rest;
      assert es[1..] == rest;
    }
  }

  /** The counterpart for Normal: the node is sure to keep its state through k ticks, whatever messages and finished
      tasks come, if and only if its tick count plus k is below 96 hours. The pending flag does not matter. */
  lemma NormalStaysForIff(v: Iv, k: nat)
    requires v.state.Normal?
    ensures StaysFor(v, k) <==> v.tick + k < TICK_96H
  {
    if v.tick + k < TICK_96H {
      forall es | Ticks(es) <= k ensures Clock(Run(v, es)) == Clock(v) { RunStaysNormal(v, es); }
    } else {
      var es := CanLeave(v, k);
    }
  }

  /** A node that returns to Normal at its time, by a message or by its own clock, starts to count anew: it stays
      there for 96 hours whatever comes. */
  lemma ReturnStaysFor96Hours(v: Iv, e: IvEvent)
    requires v.state.InProgress? && !e.FinishEvent?
    requires var w := Apply(v, e); w.state.Normal? && Clock(w) == Clock(v) + 1
    ensures StaysFor(Apply(v, e), Hours(96) - 1)
  {
    NormalStaysForIff(Apply(v, e), TICK_96H - 1);
  }

  function TicksAlone(k: nat): seq<IvEvent> { seq(k, _ => TickEvent(false)) }

  /** By its own clock alone an idle node stays In Progress as long as its tick count is below 144 hours, and returns to
      Normal with a count of zero when it gets there. */
  lemma {:induction false} OwnClockReturnsAfter144Hours(v: Iv, k: nat)
    requires v.state.InProgress? && v.tick + k <= Hours(144)
    ensures Run(v, TicksAlone(k)) == if k > 0 && v.tick + k == Hours(144) then v.(state := Normal, tick := 0) else v.(tick := v.tick + k)
    decreases k
  {
    if k > 0 {
      assert TicksAlone(k)[1..] == TicksAlone(k - 1);
      var w := Apply(v, TicksAlone(k)[0]);
      if k == 1 { assert Run(w, TicksAlone(0)) == w; } else { OwnClockReturnsAfter144Hours(w, k - 1); }
    }
  }

  /** A deferred return, made when a task finishes, keeps the old count: the 96 hours are kept if and only if that
      count is zero. */
  lemma DeferredReturnStaysIff(v: Iv, k: nat)
    requires v.state.InProgress? && v.pending
    ensures var w := Apply(v, FinishEvent);
            w.state.Normal? && Clock(w) == Clock(v) + 1 && (StaysFor(w, k) <==> v.tick + k < TICK_96H)
  {
    NormalStaysForIff(Apply(v, FinishEvent), k);
  }

  // ---------- how far one message can move the clock ----------

  /** The tick count stops at 48 weeks. */
  lemma {:induction false} CountIsCapped(v: Iv, es: seq<IvEvent>)
    requires v.tick <= TICK_48W
    ensures Run(v, es).tick <= TICK_48W
    decreases |es|
  {
    if es != [] { CountIsCapped(Apply(v, es[0]), es[1..]); }
  }

  /** So no message moves the clock by more than 84 steps, that is 42 whole updates, although 42 indexes ahead and back
      to Normal would be 85; a node that has waited for 48 weeks takes all 84. */
  lemma LongestJump(v: Iv, e: IvEvent)
    requires v.tick <= TICK_48W
    ensures Clock(Apply(v, e)) <= Clock(v) + 84
    ensures v.tick == TICK_48W ==> Clock(Apply(v, UpdateEvent(v.index + 42, v.state, true))) == Clock(v) + 84
  {
  }

  /** A recovery, which moves the clock by more than one step, leaves exactly the time for one more: the next message
      can move it at once, but by one step only. */
  lemma AfterRecoveryOneStep(v: Iv, e: IvEvent, f: IvEvent)
    requires IvValid(v) && e.UpdateEvent? && Clock(Apply(v, e)) > Clock(v) + 1
    ensures !StaysFor(Apply(v, e), 0) && (f.UpdateEvent? ==> Clock(Apply(Apply(v, e), f)) <= Clock(Apply(v, e)) + 1)
  {
    var w := Apply(v, e);
    if w.state.Normal? { NormalStaysForIff(w, 0); } else { StaysForIff(w, 0); }
    hide StaysFor;
  }

  // ---------- the pending flag is never cleared ----------

  /** One deferred transition leaves the flag set for good: here the node enters In Progress for IV index 7
      and the very next finished task ends it, with no tick in between. */
  lemma StaleFlagSkipsInProgress()
    ensures var v := Iv(6, InProgress, TICK_144H, false);
            var deferred := [TickEvent(true), FinishEvent];
            var later := [UpdateEvent(7, InProgress, false), FinishEvent];
            && TxIv(Run(v, deferred)) == 6 && Run(v, deferred).state.Normal?
            && Run(v, deferred + later[..1]).state.InProgress?
            && TxIv(Run(v, deferred + later)) == 7
  {
    var v := Iv(6, InProgress, TICK_144H, false);
    var e0, e1, e2, e3 := TickEvent(true), FinishEvent, UpdateEvent(7, InProgress, false), FinishEvent;
    var v1 := Apply(v, e0);
    var v2 := Apply(v1, e1);
    var v3 := Apply(v2, e2);
    var v4 := Apply(v3, e3);
    assert Run(v, [e0, e1]) == v2 by { RunTwo(v, e0, e1); }
    assert [e0, e1] + [e2, e3] == [e0, e1, e2, e3] && [e0, e1] + [e2, e3][..1] == [e0, e1, e2];
    RunAppend(v, [e0, e1], [e2, e3]);
    RunAppend(v, [e0, e1], [e2, e3][..1]);
    RunTwo(v2, e2, e3);
    assert Run(v2, [e2]) == v3 by { assert [e2][1..] == []; assert Run(v3, []) == v3; }
  }

  lemma RunTwo(v: Iv, a: IvEvent, b: IvEvent)
    ensures Run(v, [a, b]) == Apply(Apply(v, a), b)
  {
    assert [a, b][1..] == [b] && [b][1..] == [];
    assert Run(Apply(v, a), [b]) == Run(Apply(Apply(v, a), b), []);
  }

  lemma {:induction false} RunAppend(v: Iv, a: seq<IvEvent>, b: seq<IvEvent>)
    ensures Run(v, a + b) == Run(Run(v, a), b)
    decreases |a|
  {
    if a == [] {
      assert a + b == b;
    } else {
      RunAppend(Apply(v, a[0]), a[1..], b);
      assert (a + b)[1..] == a[1..] + b;
    }
  }
}
