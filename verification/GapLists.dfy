// The GAP module's state (mesh/gap/meshx_gap.c): a pool of list nodes, linked into an idle and an active list,
// changed in place; each routine is proved to do what the step function of GapQueue says.

module GapLists {
  import opened List
  import opened GapQueue

  lemma DistinctPrefix(nodes: seq<Node>, i: nat)
    requires Distinct(nodes) && i < |nodes|
    ensures nodes[i] !in nodes[..i]
  {
  }

  class GapState {
    const idleHead: Node
    const activeHead: Node
    /** The pool, in allocation order, and what each node's structure holds. */
    var nodes: seq<Node>
    var actions: map<Node, Action>
    var enabled: bool
    var advIdle: bool
    var scanIdle: bool
    ghost var idleList: seq<Node>
    ghost var activeList: seq<Node>
    ghost var started: seq<Action>

    ghost predicate Shaped()
      reads this
    {
      idleHead != activeHead && idleHead !in nodes && activeHead !in nodes && Distinct(nodes) && forall i :: 0 <= i < |nodes| ==> nodes[i] in actions
    }

    /** Every node of the pool is in at most one of the two lists. */
    ghost predicate Linked()
      reads this, idleHead, activeHead, nodes
    {
      && Shaped()
      && (forall i :: 0 <= i < |idleList| ==> idleList[i] in nodes && idleList[i] !in activeList)
      && (forall i :: 0 <= i < |activeList| ==> activeList[i] in nodes && activeList[i] !in idleList)
      && Ring(idleHead, idleList) && Ring(activeHead, activeList)
    }

    /** And in at least one: idle plus active is the pool. */
    ghost predicate Valid()
      reads this, idleHead, activeHead, nodes
    {
      Linked() && |idleList| + |activeList| == |nodes|
    }

    /** meshx_gap_init */
    constructor (gapTaskNum: nat)
      ensures Valid() && |nodes| == gapTaskNum && fresh(nodes) && fresh(idleHead) && fresh(activeHead)
      ensures !enabled && activeList == [] && idleList == nodes && started == []
    {
      idleHead := new Node();
      activeHead := new Node();
      nodes, idleList, activeList, started := [], [], [], [];
      actions := map[];
      enabled, advIdle, scanIdle := false, true, true;
      new;
      var i := 0;
      while i < gapTaskNum
        invariant i <= gapTaskNum && |nodes| == i && fresh(nodes) && Shaped() && started == [] && !enabled
        invariant fresh(idleHead) && fresh(activeHead)
      {
        var node := new Node();
        nodes := nodes + [node];
        actions := actions[node := Action(Scan, [])];
        i := i + 1;
      }
      ClearAllActions();
    }

    /** Both heads are reset and every node of the pool is appended to the idle list. */
    method ClearAllActions()
      requires Shaped()
      modifies this`idleList, this`activeList, idleHead, activeHead, nodes
      ensures Valid() && idleList == nodes && activeList == []
    {
      hide Ring, Distinct;
      InitHead(idleHead);
      InitHead(activeHead);
      LinkAllIdle();
      idleList, activeList := nodes, [];
    }

    method LinkAllIdle()
      requires Shaped() && Ring(idleHead, []) && Ring(activeHead, [])
      modifies idleHead, nodes
      ensures Ring(idleHead, nodes) && Ring(activeHead, [])
    {
      hide Ring, Distinct;
      var i := 0;
      while i < |nodes|
        invariant i <= |nodes| && Ring(idleHead, nodes[..i]) && Ring(activeHead, [])
      {
        LinkIdle(i);
        i := i + 1;
      }
      assert nodes[..i] == nodes;
    }

    method LinkIdle(i: nat)
      requires Shaped() && i < |nodes| && Ring(idleHead, nodes[..i]) && Ring(activeHead, [])
      modifies idleHead, nodes
      ensures Ring(idleHead, nodes[..i + 1]) && Ring(activeHead, [])
    {
      hide Ring, At, Before;
      DistinctPrefix(nodes, i);
      Append(idleHead, nodes[i], nodes[..i]);
      assert nodes[..i + 1] == nodes[..i] + [nodes[i]];
    }

    ghost function Queue(): seq<Action>
      reads this, idleHead, activeHead, nodes
      requires Linked()
    {
      QueueOf(actions, activeList)
    }

    ghost function Abs(): Gap
      reads this, idleHead, activeHead, nodes
      requires Linked()
    {
      Gap(enabled, advIdle, scanIdle, Queue(), |idleList|, started)
    }

    /** meshx_run_actions */
    method RunActionsInPlace()
      requires Valid()
      modifies this, idleHead, activeHead, nodes
      ensures Valid() && Abs() == RunActions(old(Abs()))
    {
      hide Ring, Distinct, At, Before;
      var node := Peek(activeHead, activeList);
      if node == null { return; }
      var action := actions[node];
      if !(if action.kind.Adv? then advIdle else scanIdle) { return; }
      MoveToIdle(node);
      started := started + [action];
    }

    /** The first active node goes back to the idle list. */
    method MoveToIdle(node: Node)
      requires Valid() && activeList != [] && node == activeList[0]
      modifies this`idleList, this`activeList, idleHead, activeHead, nodes
      ensures Valid() && activeList == old(activeList)[1..] && idleList == old(idleList) + [node]
    {
      hide Ring, Distinct, At, Before;
      RingHead(activeHead, activeList);
      assert Removed(activeList, 0) == activeList[1..];
      Remove(node, activeHead, activeList, 0);
      activeList := activeList[1..];
      Append(idleHead, node, idleList);
      idleList := idleList + [node];
    }

    /** The comparison of the containing structures, as they are now. */
    function Compare(): (Node, Node) -> bool
      reads this
    {
      var m := actions;
      (x: Node, y: Node) => x in m && y in m && Precedes(m[x], m[y])
    }

    /** meshx_sort_insert_action and meshx_append_action: false when the pool is used up. */
    method TakeNode(a: Action) returns (node: Node?)
      requires Valid()
      modifies this`actions, this`idleList, idleHead, activeHead, nodes
      ensures Linked() && activeList == old(activeList) && QueueOf(actions, activeList) == old(Queue())
      ensures old(idleList) == [] ==> node == null && idleList == [] && Valid()
      ensures old(idleList) != [] ==>
                && node == old(idleList)[0] && idleList == old(idleList)[1..] && actions == old(actions)[node := a]
                && node in nodes && node !in idleList && node !in activeList
    {
      hide Ring, Distinct, At, Before;
      RingHead(idleHead, idleList);
      node := Pop(idleHead, idleList);
      if node == null { return; }
      assert node !in activeList;
      actions := actions[node := a];
      idleList := idleList[1..];
    }

    method SortInsertAction(a: Action) returns (ok: bool)
      requires Valid() && a.kind.Adv?
      modifies this`actions, this`idleList, this`activeList, idleHead, activeHead, nodes
      ensures Valid() && ok == (old(idleList) != [])
      ensures Abs() == if ok then old(Abs()).(queue := Insert(old(Abs()).queue, a), idle := old(Abs()).idle - 1) else old(Abs())
    {
      hide Ring, Distinct, At, Before, Inserted, Position, Place;
      var node := TakeNode(a);
      if node == null { return false; }
      var cmp := Compare();
      SamePlace(node, activeList, cmp, actions, a, 0);
      SortInsert(activeHead, node, cmp, activeList);
      ghost var k := Place(a, QueueOf(actions, activeList), 0);
      QueueOfInserted(actions, activeList, k, node);
      InsertedMembers(activeList, k, node);
      activeList := Inserted(activeList, k, node);
      ok := true;
    }

    method AppendAction(a: Action) returns (ok: bool)
      requires Valid() && a.kind.Scan?
      modifies this`actions, this`idleList, this`activeList, idleHead, activeHead, nodes
      ensures Valid() && ok == (old(idleList) != [])
      ensures Abs() == if ok then old(Abs()).(queue := Insert(old(Abs()).queue, a), idle := old(Abs()).idle - 1) else old(Abs())
    {
      hide Ring, Distinct, At, Before;
      var node := TakeNode(a);
      if node == null { return false; }
      Append(activeHead, node, activeList);
      activeList := activeList + [node];
      ok := true;
    }

    /** meshx_gap_add_action */
    method GapAddAction(a: Action) returns (ok: bool)
      requires Valid()
      modifies this, idleHead, activeHead, nodes
      ensures Valid() && ok == Accepts(old(Abs())) && Abs() == AddAction(old(Abs()), a)
    {
      hide Insert, RunActions, Ring;
      if !enabled { return false; }
      if a.kind.Scan? { ok := AppendAction(a); } else { ok := SortInsertAction(a); }
      if ok { RunActionsInPlace(); }
    }

    method GapStart()
      requires Valid()
      modifies this`enabled
      ensures Valid() && Abs() == GapQueue.Start(old(Abs()))
    {
      if enabled { return; }
      enabled := true;
    }

    method GapStop()
      requires Valid()
      modifies this, idleHead, activeHead, nodes
      ensures Valid() && Abs() == Stop(old(Abs()))
    {
      hide Ring, Distinct;
      if enabled {
        ClearAllActions();
        assert Queue() == [];
        enabled := false;
      }
    }

    /** The advertising branch of meshx_gap_handle_bt_status. */
    method HandleAdvState(idle: bool)
      requires Valid()
      modifies this, idleHead, activeHead, nodes
      ensures Valid() && Abs() == AdvState(old(Abs()), idle)
    {
      hide Ring, RunActions;
      advIdle := idle;
      if advIdle { RunActionsInPlace(); }
    }
  }

  ghost function QueueOf(m: map<Node, Action>, s: seq<Node>): (q: seq<Action>)
    requires forall i :: 0 <= i < |s| ==> s[i] in m
    ensures |q| == |s| && forall i :: 0 <= i < |s| ==> q[i] == m[s[i]]
  {
    seq(|s|, i requires 0 <= i < |s| => m[s[i]])
  }

  lemma {:induction false} SamePlace(node: Node, s: seq<Node>, cmp: (Node, Node) -> bool, m: map<Node, Action>, a: Action, k: nat)
    requires (forall i :: 0 <= i < |s| ==> s[i] in m) && node in m && m[node] == a && k <= |s|
    requires forall x, y :: cmp(x, y) <==> x in m && y in m && Precedes(m[x], m[y])
    ensures Position(node, s, cmp, k) == Place(a, QueueOf(m, s), k)
    decreases |s| - k
  {
    if k < |s| { SamePlace(node, s, cmp, m, a, k + 1); }
  }

  lemma QueueOfInserted(m: map<Node, Action>, s: seq<Node>, k: nat, node: Node)
    requires (forall i :: 0 <= i < |s| ==> s[i] in m) && node in m && k <= |s|
    ensures forall i :: 0 <= i <= |s| ==> Inserted(s, k, node)[i] in m
    ensures QueueOf(m, Inserted(s, k, node)) == QueueOf(m, s)[..k] + [m[node]] + QueueOf(m, s)[k..]
  {
    forall i | 0 <= i <= |s| ensures Inserted(s, k, node)[i] in m { InsertedAt(s, k, node, i); }
  }
}
