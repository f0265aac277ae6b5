// When an action of the GAP queue is started, how long one waits, and what a stop does.

module GapProgress {
  import opened GapQueue

  /** The action that is first once a has been queued: a itself if nothing waits, or if it is an advertisement and only
      scans do. */
  function FirstWith(q: seq<Action>, a: Action): Action {
    if q == [] || (a.kind.Adv? && q[0].kind.Scan?) then a else q[0]
  }

  /** An event starts an action if and only if it is accepted, or a report that advertising is idle, and then the first one
      if its radio was last reported idle. A report that scanning is idle starts none. */
  lemma StartsIff(g: Gap, e: Event)
    ensures var h := Step(g, e);
            && h.advIdle == (if e.AdvChanged? then e.idle else g.advIdle)
            && h.scanIdle == (if e.ScanChanged? then e.idle else g.scanIdle)
            && match e
               case Added(a) => h.started == g.started + (if Accepts(g) && RadioFree(g, FirstWith(g.queue, a).kind) then [FirstWith(g.queue, a)] else [])
               case AdvChanged(idle) =>
                 h.started == g.started + (if idle && g.queue != [] && (g.queue[0].kind.Adv? || g.scanIdle) then [g.queue[0]] else [])
               case _ => h.started == g.started
  {
    if e.Added? && Accepts(g) { FirstIs(g.queue, e.a); }
    hide Insert;
  }

  lemma FirstIs(q: seq<Action>, a: Action)
    ensures Insert(q, a) != [] && Insert(q, a)[0] == FirstWith(q, a)
  {
  }

  /** How often advertising was reported idle. */
  function IdleReports(es: seq<Event>): nat {
    if es == [] then 0 else (if es[0].AdvChanged? && es[0].idle then 1 else 0) + IdleReports(es[1..])
  }

  function Least(a: nat, b: nat): nat { if a < b then a else b }

  lemma OneOf(k: Kind, q: seq<Action>, a: Action)
    ensures Of(k, q + [a]) == Of(k, q) + (if a.kind == k then [a] else [])
  {
    OfAppend(k, q, [a]);
    OfOne(k, a);
  }

  lemma FirstWaits(q: seq<Action>)
    requires Ordered(q) && Of(Adv, q) != []
    ensures q != [] && q[0].kind.Adv?
  {
    if q != [] && q[0].kind.Scan? { OfAllOther(Adv, q); }
  }

  /** One step starts an advertisement if it reports idle and one waits, and none gets lost. */
  lemma StepProgress(g: Gap, e: Event)
    requires Ordered(g.queue) && !e.Stopped?
    ensures var h := Step(g, e);
            && Ordered(h.queue) && |Of(Adv, h.started)| >= |Of(Adv, g.started)|
            && |Of(Adv, h.started)| + |Of(Adv, h.queue)| >= |Of(Adv, g.started)| + |Of(Adv, g.queue)|
            && (e.AdvChanged? && e.idle && Of(Adv, g.queue) != [] ==> |Of(Adv, h.started)| > |Of(Adv, g.started)|)
  {
    StepKeeps(g, e, Adv);
    StartsIff(g, e);
    if Of(Adv, g.queue) != [] { FirstWaits(g.queue); }
    hide Step, Ordered;
    var h := Step(g, e);
    if e.Added? { OneOf(Adv, g.started, FirstWith(g.queue, e.a)); }
    if g.queue != [] { OneOf(Adv, g.started, g.queue[0]); }
    assert g.started + [] == g.started;
    hide Of;
  }

  /** Advertisements wait no longer than those before them: after n idle reports, whatever else comes but a stop, the first
      n of those that waited have been started (which ones these are, and in what order, is QueueIsFairOverRuns). */
  lemma {:induction false} WaitIsBounded(g: Gap, es: seq<Event>)
    requires Ordered(g.queue) && forall i :: 0 <= i < |es| ==> !es[i].Stopped?
    ensures |Of(Adv, Run(g, es).started)| >= |Of(Adv, g.started)| + Least(IdleReports(es), |Of(Adv, g.queue)|)
    decreases |es|
  {
    if es != [] {
      StepProgress(g, es[0]);
      hide Step, Of, Ordered;
      WaitIsBounded(Step(g, es[0]), es[1..]);
    }
  }

  /** A stopped queue is empty, and until it is started again nothing is accepted or started. */
  lemma {:induction false} StoppedStartsNothing(g: Gap, es: seq<Event>)
    requires !g.enabled && g.queue == [] && forall i :: 0 <= i < |es| ==> !es[i].Started?
    ensures var h := Run(g, es); !h.enabled && h.queue == [] && h.started == g.started && h.idle == g.idle
    decreases |es|
  {
    if es != [] { StoppedStartsNothing(Step(g, es[0]), es[1..]); }
  }

  /** A stop at a running queue gives every waiting action's node back; at a stopped one it does nothing. */
  lemma StopEmpties(g: Gap)
    requires !g.enabled ==> g.queue == []
    ensures var h := Step(g, Stopped);
            !h.enabled && h.queue == [] && h.started == g.started && h.idle == g.idle + |g.queue|
  {
  }
}
