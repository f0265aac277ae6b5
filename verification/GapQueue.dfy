// The GAP action queue (mesh/gap/meshx_gap.c) on values: advertisements before scans, each first in first out.

module GapQueue {

  datatype Kind = Scan | Adv

  datatype Action = Action(kind: Kind, data: seq<int>)

  /** idle: free list nodes. started: every action handed to the radio, oldest first. */
  datatype Gap = Gap(enabled: bool, advIdle: bool, scanIdle: bool, queue: seq<Action>, idle: nat, started: seq<Action>)

  /** meshx_action_cmp */
  predicate Precedes(a: Action, b: Action) { a.kind.Adv? && b.kind.Scan? }

  /** First position from k on that a takes precedence over. */
  function Place(a: Action, q: seq<Action>, from: nat): (k: nat)
    requires from <= |q|
    ensures from <= k <= |q| && (k < |q| ==> Precedes(a, q[k])) && forall i :: from <= i < k ==> !Precedes(a, q[i])
    decreases |q| - from
  {
    if from == |q| || Precedes(a, q[from]) then from else Place(a, q, from + 1)
  }

  function Insert(q: seq<Action>, a: Action): seq<Action> {
    if a.kind.Scan? then q + [a] else q[..Place(a, q, 0)] + [a] + q[Place(a, q, 0)..]
  }

  predicate RadioFree(g: Gap, k: Kind) { if k.Adv? then g.advIdle else g.scanIdle }

  /** meshx_run_actions */
  function RunActions(g: Gap): Gap {
    if g.queue == [] || !RadioFree(g, g.queue[0].kind) then g
    else g.(queue := g.queue[1..], idle := g.idle + 1, started := g.started + [g.queue[0]])
  }

  predicate Accepts(g: Gap) { g.enabled && g.idle > 0 }

  /** meshx_gap_add_action */
  function AddAction(g: Gap, a: Action): Gap {
    if !Accepts(g) then g else RunActions(g.(queue := Insert(g.queue, a), idle := g.idle - 1))
  }

  function Start(g: Gap): Gap { if g.enabled then g else g.(enabled := true) }

  function Stop(g: Gap): Gap { if g.enabled then g.(enabled := false, queue := [], idle := g.idle + |g.queue|) else g }

  function AdvState(g: Gap, idle: bool): Gap {
    var h := g.(advIdle := idle);
    if idle then RunActions(h) else h
  }

  // ---------- order ----------

  /** Every advertisement is before every scan. */
  predicate Ordered(q: seq<Action>) { forall i, j :: 0 <= i < j < |q| && q[i].kind.Scan? ==> q[j].kind.Scan? }

  function Of(k: Kind, q: seq<Action>): seq<Action>
    decreases |q|
  {
    if q == [] then [] else Of(k, q[..|q| - 1]) + (if q[|q| - 1].kind == k then [q[|q| - 1]] else [])
  }

  lemma {:induction false} OfAppend(k: Kind, q: seq<Action>, r: seq<Action>)
    ensures Of(k, q + r) == Of(k, q) + Of(k, r)
    decreases |r|
  {
    if r == [] {
      assert q + r == q;
    } else {
      assert (q + r)[..|q + r| - 1] == q + r[..|r| - 1];
      OfAppend(k, q, r[..|r| - 1]);
    }
  }

  lemma {:induction false} OfAllOther(k: Kind, q: seq<Action>)
    requires forall i :: 0 <= i < |q| ==> q[i].kind != k
    ensures Of(k, q) == []
    decreases |q|
  {
    if q != [] { OfAllOther(k, q[..|q| - 1]); }
  }

  lemma OfOne(k: Kind, a: Action)
    ensures Of(k, [a]) == if a.kind == k then [a] else []
  {
    assert [a][..0] == [];
  }

  /** An insertion keeps the order and puts the action behind all of its own kind. */
  lemma InsertBehindItsKind(q: seq<Action>, a: Action, k: Kind)
    requires Ordered(q)
    ensures Ordered(Insert(q, a)) && |Insert(q, a)| == |q| + 1
    ensures Of(k, Insert(q, a)) == Of(k, q) + (if a.kind == k then [a] else [])
  {
    if a.kind.Scan? {
      OfOne(k, a);
      OfAppend(k, q, [a]);
    } else {
      var p := Place(a, q, 0);
      BackIsScans(q, p);
      InsertOrdered(q, a, p);
      hide Ordered, Place, Precedes;
      assert q == q[..p] + q[p..];
      OfInserted(q[..p], q[p..], a, k);
    }
  }

  lemma OfInserted(front: seq<Action>, back: seq<Action>, a: Action, k: Kind)
    requires a.kind.Adv? && forall i :: 0 <= i < |back| ==> back[i].kind.Scan?
    ensures Of(k, front + [a] + back) == Of(k, front + back) + (if a.kind == k then [a] else [])
  {
    OfOne(k, a);
    OfAppend(k, front, back);
    OfAppend(k, front + [a], back);
    OfAppend(k, front, [a]);
    if k.Adv? { OfAllOther(k, back); }
    hide Of;
  }

  lemma BackIsScans(q: seq<Action>, p: nat)
    requires Ordered(q) && p <= |q| && (p < |q| ==> q[p].kind.Scan?)
    ensures forall i :: 0 <= i < |q[p..]| ==> q[p..][i].kind.Scan?
  {
  }

  lemma InsertOrdered(q: seq<Action>, a: Action, p: nat)
    requires Ordered(q) && a.kind.Adv? && p == Place(a, q, 0)
    ensures Ordered(q[..p] + [a] + q[p..])
  {
    var r := q[..p] + [a] + q[p..];
    forall i, j | 0 <= i < j < |r| && r[i].kind.Scan? ensures r[j].kind.Scan? {
      assert r[i] == q[if i < p then i else i - 1];
      assert i > p;
      assert r[j] == q[j - 1];
    }
  }

  /** Starting the head of the queue moves it, and nothing else, from the queue to the started actions; a scan is
      started only when no advertisement waits. */
  lemma RunTakesHead(g: Gap, k: Kind)
    requires Ordered(g.queue)
    ensures var h := RunActions(g);
            && Ordered(h.queue) && |h.queue| + h.idle == |g.queue| + g.idle
            && Of(k, h.started) + Of(k, h.queue) == Of(k, g.started) + Of(k, g.queue)
            && (|h.started| > |g.started| && h.started[|g.started|].kind.Scan? ==> Of(Adv, g.queue) == [])
  {
    var h := RunActions(g);
    if h != g {
      var a := g.queue[0];
      OfAppend(k, g.started, [a]);
      OfAppend(k, [a], h.queue);
      assert g.queue == [a] + h.queue;
      assert Of(k, g.started) + Of(k, [a]) + Of(k, h.queue) == Of(k, g.started) + (Of(k, [a]) + Of(k, h.queue));
      if a.kind.Scan? {
        assert forall i :: 0 < i < |g.queue| ==> g.queue[i].kind.Scan?;
        OfAllOther(Adv, g.queue);
      }
    }
  }

  // ---------- runs ----------

  datatype Event = Added(a: Action) | AdvChanged(idle: bool) | ScanChanged(idle: bool) | Started | Stopped

  function Step(g: Gap, e: Event): Gap {
    match e
    case Added(a) => AddAction(g, a)
    case AdvChanged(idle) => AdvState(g, idle)
    case ScanChanged(idle) => g.(scanIdle := idle)
    case Started => Start(g)
    case Stopped => Stop(g)
  }

  function Run(g: Gap, es: seq<Event>): Gap
    decreases |es|
  {
    if es == [] then g else Run(Step(g, es[0]), es[1..])
  }

  /** The actions of kind k the run accepted, in order. */
  function Accepted(g: Gap, es: seq<Event>, k: Kind): seq<Action>
    decreases |es|
  {
    if es == [] then []
    else (if es[0].Added? && Accepts(g) && es[0].a.kind == k then [es[0].a] else []) + Accepted(Step(g, es[0]), es[1..], k)
  }

  lemma StepKeeps(g: Gap, e: Event, k: Kind)
    requires Ordered(g.queue)
    ensures var h := Step(g, e);
            && Ordered(h.queue) && |h.queue| + h.idle == |g.queue| + g.idle
            && (!e.Stopped? ==>
                  Of(k, h.started) + Of(k, h.queue)
                  == Of(k, g.started) + Of(k, g.queue) + (if e.Added? && Accepts(g) && e.a.kind == k then [e.a] else []))
  {
    hide RunActions, Insert, Ordered, Of;
    match e
    case Added(a) =>
      if Accepts(g) {
        InsertBehindItsKind(g.queue, a, k);
        RunTakesHead(g.(queue := Insert(g.queue, a), idle := g.idle - 1), k);
        assert Of(k, g.started) + (Of(k, g.queue) + (if a.kind == k then [a] else []))
               == Of(k, g.started) + Of(k, g.queue) + (if a.kind == k then [a] else []);
      }
    case AdvChanged(idle) => RunTakesHead(g.(advIdle := idle), k);
    case ScanChanged(_) =>
    case Started =>
    case Stopped => EmptyOrdered();
  }

  lemma EmptyOrdered()
    ensures Ordered([])
  {
  }

  /** Over any run the pool is conserved and advertisements stay before scans; and as long as the queue is not
      stopped, what was started and what still waits, kind by kind, is exactly what was accepted, in order. */
  lemma {:induction false} QueueIsFairOverRuns(g: Gap, es: seq<Event>, k: Kind)
    requires Ordered(g.queue)
    ensures var h := Run(g, es);
            && Ordered(h.queue) && |h.queue| + h.idle == |g.queue| + g.idle
            && ((forall i :: 0 <= i < |es| ==> !es[i].Stopped?) ==>
                  Of(k, h.started) + Of(k, h.queue) == Of(k, g.started) + Of(k, g.queue) + Accepted(g, es, k))
    decreases |es|
  {
    hide Step, Ordered, Of;
    if es != [] {
      StepKeeps(g, es[0], k);
      QueueIsFairOverRuns(Step(g, es[0]), es[1..], k);
    }
  }
}
