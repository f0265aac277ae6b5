// The circular doubly linked list (common/meshx_list.c): a head node and the nodes linked into it, each routine
// proved to do to the sequence of nodes what its name says.

module List {

  /** meshx_list_t */
  class Node {
    var prev: Node?
    var next: Node?

    constructor ()
    {
      prev, next := null, null;
    }
  }

  /** Node i of the list, the head standing after the last one. */
  function At(h: Node, s: seq<Node>, i: nat): Node { if i < |s| then s[i] else h }

  /** Node i - 1, the head standing before the first one. */
  function Before(h: Node, s: seq<Node>, i: nat): Node { if 0 < i <= |s| then s[i - 1] else h }

  ghost predicate Distinct(s: seq<Node>) { forall i, j :: 0 <= i < j < |s| ==> s[i] != s[j] }

  /** The list of h holds exactly the nodes of s, in that order; next and prev are inverse to each other. */
  ghost predicate Ring(h: Node, s: seq<Node>)
    reads h, s
  {
    && h !in s && Distinct(s)
    && h.next == At(h, s, 0) && h.prev == Before(h, s, |s|)
    && (forall i :: 0 <= i < |s| ==> s[i].next == At(h, s, i + 1))
    && (forall i :: 0 <= i < |s| ==> s[i].prev == Before(h, s, i))
  }

  function Inserted(s: seq<Node>, k: nat, node: Node): seq<Node>
    requires k <= |s|
  {
    s[..k] + [node] + s[k..]
  }

  function Removed(s: seq<Node>, k: nat): seq<Node>
    requires k < |s|
  {
    s[..k] + s[k + 1..]
  }

  lemma InsertedAt(s: seq<Node>, k: nat, node: Node, i: nat)
    requires k <= |s| && i <= |s|
    ensures Inserted(s, k, node)[i] == if i < k then s[i] else if i == k then node else s[i - 1]
  {
  }

  lemma InsertedDistinct(s: seq<Node>, k: nat, node: Node)
    requires k <= |s| && Distinct(s) && node !in s
    ensures Distinct(Inserted(s, k, node))
  {
    var t := Inserted(s, k, node);
    forall i, j | 0 <= i < j < |t| ensures t[i] != t[j] {
      InsertedAt(s, k, node, i);
      InsertedAt(s, k, node, j);
    }
  }

  /** All links of the list are right but those between s[k - 1] and s[k]. */
  ghost predicate OpenAt(h: Node, s: seq<Node>, k: nat)
    reads h, s
  {
    && k <= |s| && h !in s && Distinct(s)
    && (k != 0 ==> h.next == At(h, s, 0)) && (k != |s| ==> h.prev == Before(h, s, |s|))
    && (forall i :: 0 <= i < |s| && i + 1 != k ==> s[i].next == At(h, s, i + 1))
    && (forall i :: 0 <= i < |s| && i != k ==> s[i].prev == Before(h, s, i))
  }

  /** Closing the gap with a new node. */
  lemma NodeCloses(h: Node, s: seq<Node>, k: nat, node: Node)
    requires OpenAt(h, s, k) && node != h && node !in s
    requires node.next == At(h, s, k) && node.prev == Before(h, s, k)
    requires At(h, s, k).prev == node && Before(h, s, k).next == node
    ensures Ring(h, Inserted(s, k, node))
  {
    var t := Inserted(s, k, node);
    InsertedDistinct(s, k, node);
    forall i | 0 <= i < |t| ensures t[i].next == At(h, t, i + 1) && t[i].prev == Before(h, t, i) && t[i] != h {
      InsertedAt(s, k, node, i);
      if i < |s| { InsertedAt(s, k, node, i + 1); }
      if i > 0 { InsertedAt(s, k, node, i - 1); }
    }
    InsertedAt(s, k, node, 0);
    InsertedAt(s, k, node, |s|);
  }

  /** Closing the gap without one. */
  lemma LinkCloses(h: Node, s: seq<Node>, k: nat)
    requires OpenAt(h, s, k) && At(h, s, k).prev == Before(h, s, k) && Before(h, s, k).next == At(h, s, k)
    ensures Ring(h, s)
  {
  }

  method InitHead(h: Node)
    modifies h
    ensures Ring(h, [])
  {
    h.prev := h;
    h.next := h;
  }

  method Prepend(h: Node, node: Node, ghost s: seq<Node>)
    requires Ring(h, s) && node != h && node !in s
    modifies h, s, node
    ensures Ring(h, [node] + s)
  {
    h.next.prev := node;
    node.next := h.next;
    h.next := node;
    node.prev := h;
    NodeCloses(h, s, 0, node);
    assert Inserted(s, 0, node) == [node] + s;
  }

  method Append(h: Node, node: Node, ghost s: seq<Node>)
    requires Ring(h, s) && node != h && node !in s
    modifies h, s, node
    ensures Ring(h, s + [node])
  {
    h.prev.next := node;
    node.prev := h.prev;
    h.prev := node;
    node.next := h;
    NodeCloses(h, s, |s|, node);
    assert Inserted(s, |s|, node) == s + [node];
  }

  /** Where a sorted insertion puts node: before the first node it compares greater than, else at the end. */
  function Position(node: Node, s: seq<Node>, cmp: (Node, Node) -> bool, from: nat): (k: nat)
    requires from <= |s|
    ensures from <= k <= |s| && (k < |s| ==> cmp(node, s[k])) && forall i :: from <= i < k ==> !cmp(node, s[i])
    decreases |s| - from
  {
    if from == |s| || cmp(node, s[from]) then from else Position(node, s, cmp, from + 1)
  }

  method SortInsert(h: Node, node: Node, cmp: (Node, Node) -> bool, ghost s: seq<Node>)
    requires Ring(h, s) && node != h && node !in s
    modifies h, s, node
    ensures Ring(h, Inserted(s, Position(node, s, cmp, 0), node))
  {
    ghost var k := 0;
    var temp := h.next;
    while temp != h
      invariant k <= |s| && temp == At(h, s, k) && Position(node, s, cmp, 0) == Position(node, s, cmp, k)
      decreases |s| - k
    {
      if cmp(node, temp) { break; }
      temp := temp.next;
      k := k + 1;
    }
    assert (temp == h || temp in s) && (Before(h, s, k) == h || Before(h, s, k) in s);
    hide Ring;
    LinkBefore(h, node, temp, s, k);
  }

  /** The four assignments that put node in front of temp. */
  method LinkBefore(h: Node, node: Node, temp: Node, ghost s: seq<Node>, ghost k: nat)
    requires Ring(h, s) && k <= |s| && node != h && node !in s && temp == At(h, s, k)
    modifies node, temp`prev, Before(h, s, k)`next
    ensures Ring(h, Inserted(s, k, node))
  {
    ghost var b := Before(h, s, k);
    NeighboursOnly(h, s, k);
    hide Ring, Distinct;
    temp.prev.next := node;
    node.prev := temp.prev;
    temp.prev := node;
    node.next := temp;
    forall i | 0 <= i < |s| && i + 1 != k ensures s[i].next == At(h, s, i + 1) { assert s[i] != b; }
    forall i | 0 <= i < |s| && i != k ensures s[i].prev == Before(h, s, i) { assert s[i] != temp; }
    NodeCloses(h, s, k, node);
  }

  /** No other node stands where s[k - 1] or s[k] does. */
  lemma NeighboursOnly(h: Node, s: seq<Node>, k: nat)
    requires Ring(h, s) && k <= |s|
    ensures h !in s && Distinct(s) && At(h, s, k).prev == Before(h, s, k)
    ensures forall i :: 0 <= i < |s| && i + 1 != k ==> s[i] != Before(h, s, k) && s[i].next == At(h, s, i + 1)
    ensures forall i :: 0 <= i < |s| && i != k ==> s[i] != At(h, s, k) && s[i].prev == Before(h, s, i)
    ensures k != 0 ==> Before(h, s, k) != h && h.next == At(h, s, 0)
    ensures k != |s| ==> At(h, s, k) != h && h.prev == Before(h, s, |s|)
  {
  }

  lemma RingHead(h: Node, s: seq<Node>)
    requires Ring(h, s)
    ensures h !in s && (s != [] ==> s[0] !in s[1..])
  {
  }

  lemma InsertedMembers(s: seq<Node>, k: nat, node: Node)
    requires k <= |s|
    ensures forall i :: 0 <= i <= |s| ==> Inserted(s, k, node)[i] == node || Inserted(s, k, node)[i] in s
  {
    forall i | 0 <= i <= |s| ensures Inserted(s, k, node)[i] == node || Inserted(s, k, node)[i] in s {
      InsertedAt(s, k, node, i);
    }
  }

  lemma RemovedAt(s: seq<Node>, k: nat, i: nat)
    requires k < |s| && i < |s| - 1
    ensures Removed(s, k)[i] == if i < k then s[i] else s[i + 1]
  {
  }

  lemma RemovedOpens(h: Node, s: seq<Node>, k: nat)
    requires Ring(h, s) && k < |s|
    ensures OpenAt(h, Removed(s, k), k) && s[k] !in Removed(s, k)
    ensures At(h, Removed(s, k), k) == s[k].next && Before(h, Removed(s, k), k) == s[k].prev
  {
    var t := Removed(s, k);
    forall i, j | 0 <= i < j < |t| ensures t[i] != t[j] {
      RemovedAt(s, k, i);
      RemovedAt(s, k, j);
    }
    forall i | 0 <= i < |t|
      ensures (i + 1 != k ==> t[i].next == At(h, t, i + 1)) && (i != k ==> t[i].prev == Before(h, t, i)) && t[i] != h && t[i] != s[k]
    {
      RemovedAt(s, k, i);
      if i + 1 < |t| { RemovedAt(s, k, i + 1); }
      if i > 0 { RemovedAt(s, k, i - 1); }
    }
    if |t| > 0 {
      RemovedAt(s, k, 0);
      RemovedAt(s, k, |t| - 1);
    }
    if k < |t| { RemovedAt(s, k, k); }
    if k > 0 { RemovedAt(s, k, k - 1); }
  }

  /** The four assignments of meshx_list_pop and meshx_list_remove. */
  method Unlink(node: Node, ghost h: Node, ghost t: seq<Node>, ghost k: nat)
    requires OpenAt(h, t, k) && node != h && node !in t && node.prev == Before(h, t, k) && node.next == At(h, t, k)
    modifies h, t, node
    ensures Ring(h, t) && node.prev == null && node.next == null
  {
    node.prev.next := node.next;
    node.next.prev := node.prev;
    node.next := null;
    node.prev := null;
    LinkCloses(h, t, k);
  }

  method Remove(node: Node, ghost h: Node, ghost s: seq<Node>, ghost k: nat)
    requires Ring(h, s) && k < |s| && s[k] == node
    modifies h, s
    ensures Ring(h, Removed(s, k)) && node.prev == null && node.next == null
  {
    RemovedOpens(h, s, k);
    Unlink(node, h, Removed(s, k), k);
  }

  method Pop(h: Node, ghost s: seq<Node>) returns (node: Node?)
    requires Ring(h, s)
    modifies h, s
    ensures s == [] ==> node == null && Ring(h, [])
    ensures s != [] ==> node == s[0] && Ring(h, s[1..]) && node.prev == null && node.next == null
  {
    if h.next == h { return null; }
    node := h.next;
    RemovedOpens(h, s, 0);
    assert Removed(s, 0) == s[1..];
    hide OpenAt, Ring, Removed;
    Unlink(node, h, s[1..], 0);
  }

  method Peek(h: Node, ghost s: seq<Node>) returns (node: Node?)
    requires Ring(h, s)
    ensures if s == [] then node == null else node == s[0]
  {
    if h.next == h { return null; }
    node := h.next;
  }

  /** 32-bit arithmetic: an absent node gives the largest value. */
  method Index(h: Node, node: Node, ghost s: seq<Node>) returns (index: nat)
    requires Ring(h, s) && |s| < 0xFFFF_FFFF
    ensures node in s <==> index != 0xFFFF_FFFF
    ensures node in s ==> index < |s| && s[index] == node
  {
    index := 0;
    var temp := h.next;
    while temp != h
      invariant index <= |s| && temp == At(h, s, index) && forall i :: 0 <= i < index ==> s[i] != node
      decreases |s| - index
    {
      if temp == node { return; }
      index := index + 1;
      temp := temp.next;
    }
    index := 0xFFFF_FFFF;
  }

  method Exists(h: Node, node: Node, ghost s: seq<Node>) returns (found: bool)
    requires Ring(h, s)
    ensures found <==> node in s
  {
    ghost var i := 0;
    var temp := h.next;
    while temp != h
      invariant i <= |s| && temp == At(h, s, i) && node !in s[..i]
      decreases |s| - i
    {
      if temp == node { return true; }
      i := i + 1;
      temp := temp.next;
    }
    found := false;
  }

  method Length(h: Node, ghost s: seq<Node>) returns (length: nat)
    requires Ring(h, s)
    ensures length == |s|
  {
    length := 0;
    var temp := h.next;
    while temp != h
      invariant length <= |s| && temp == At(h, s, length)
      decreases |s| - length
    {
      length := length + 1;
      temp := temp.next;
    }
  }

  lemma {:induction false} SameNode(h: Node, s: seq<Node>, t: seq<Node>, k: nat)
    requires Ring(h, s) && Ring(h, t) && k <= |s|
    ensures k <= |t| && At(h, s, k) == At(h, t, k)
  {
    if k > 0 {
      SameNode(h, s, t, k - 1);
      hide Distinct;
    }
  }

  /** A list is determined by its head: following next visits one sequence of nodes only. */
  lemma RingUnique(h: Node, s: seq<Node>, t: seq<Node>)
    requires Ring(h, s) && Ring(h, t)
    ensures s == t
  {
    SameNode(h, s, t, |s|);
    SameNode(h, t, s, |t|);
    forall i | 0 <= i < |s| ensures s[i] == t[i] { SameNode(h, s, t, i); }
  }
}
