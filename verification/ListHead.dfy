/**
 Circular doubly linked lists of cluster records, as the kernel's list_head links them: a head and
 the records after it, each link written in place.
 */
module ListHead {

  // struct lse_sched_cluster with its embedded list_head; a bare head holds no CPUs.
  class Node {
    var next: Node
    var prev: Node
    const cpus: set<nat>
    const maxCapacity: nat
    var id: int

    // INIT_LIST_HEAD
    constructor (cpus: set<nat>, maxCapacity: nat)
      ensures next == this && prev == this
      ensures this.cpus == cpus && this.maxCapacity == maxCapacity && id == 0
    {
      next, prev := this, this;
      this.cpus, this.maxCapacity, id := cpus, maxCapacity, 0;
    }
  }

  // The i-th stop on a walk from the head: the head, the nodes in order, the head again.
  function At(head: Node, nodes: seq<Node>, i: int): Node
    requires 0 <= i <= |nodes| + 1
  {
    if 1 <= i <= |nodes| then nodes[i - 1] else head
  }

  ghost predicate Linked(a: Node, b: Node)
    reads a, b
  {
    a.next == b && b.prev == a
  }

  ghost predicate Distinct(head: Node, nodes: seq<Node>) {
    head !in nodes && forall i, j :: 0 <= i < j < |nodes| ==> nodes[i] != nodes[j]
  }

  // head and nodes form a well-formed circular doubly linked list in that order.
  ghost predicate Ring(head: Node, nodes: seq<Node>)
    reads head, nodes
  {
    && Distinct(head, nodes)
    && forall i {:trigger At(head, nodes, i)} :: 0 <= i <= |nodes| ==> Linked(At(head, nodes, i), At(head, nodes, i + 1))
  }

  function Inserted(nodes: seq<Node>, k: nat, x: Node): seq<Node>
    requires k <= |nodes|
  {
    nodes[..k] + [x] + nodes[k..]
  }

  function Removed(nodes: seq<Node>, k: nat): seq<Node>
    requires k < |nodes|
  {
    nodes[..k] + nodes[k + 1..]
  }

  // list_add
  method ListAdd(x: Node, pos: Node, ghost head: Node, ghost nodes: seq<Node>, ghost k: nat)
    requires Ring(head, nodes) && k <= |nodes| && pos == At(head, nodes, k)
    requires x != head && x !in nodes
    modifies x`next, x`prev, pos`next, pos.next`prev
    ensures Ring(head, Inserted(nodes, k, x))
  {
    assert Linked(At(head, nodes, k), At(head, nodes, k + 1));
    var next := pos.next;
    next.prev := x;
    x.next := next;
    x.prev := pos;
    pos.next := x;
    ghost var r := Inserted(nodes, k, x);
    forall i | 0 <= i <= |r|
      ensures Linked(At(head, r, i), At(head, r, i + 1))
    {
      if i < k {
        assert At(head, r, i) == At(head, nodes, i) && At(head, r, i + 1) == At(head, nodes, i + 1);
      } else if i > k + 1 {
        assert At(head, r, i) == At(head, nodes, i - 1) && At(head, r, i + 1) == At(head, nodes, i);
      }
    }
  }

  // list_del
  method ListDel(x: Node, ghost head: Node, ghost nodes: seq<Node>, ghost k: nat)
    requires Ring(head, nodes) && k < |nodes| && x == nodes[k]
    modifies x.prev`next, x.next`prev
    ensures Ring(head, Removed(nodes, k))
  {
    assert Linked(At(head, nodes, k), At(head, nodes, k + 1));
    assert Linked(At(head, nodes, k + 1), At(head, nodes, k + 2));
    x.next.prev := x.prev;
    x.prev.next := x.next;
    ghost var r := Removed(nodes, k);
    forall i | 0 <= i <= |r|
      ensures Linked(At(head, r, i), At(head, r, i + 1))
    {
      if i < k {
        assert At(head, r, i) == At(head, nodes, i) && At(head, r, i + 1) == At(head, nodes, i + 1);
      } else if i > k {
        assert At(head, r, i) == At(head, nodes, i + 1) && At(head, r, i + 1) == At(head, nodes, i + 2);
      }
    }
  }

  // move_list: dst takes over the chain that hangs between src.next and src.prev.
  method MoveList(dst: Node, src: Node, ghost nodes: seq<Node>)
    requires Ring(src, nodes) && nodes != [] && dst != src && dst !in nodes
    modifies dst`next, dst`prev, src.next`prev, src.prev`next
    ensures Ring(dst, nodes)
  {
    assert Linked(At(src, nodes, 0), At(src, nodes, 1));
    assert Linked(At(src, nodes, |nodes|), At(src, nodes, |nodes| + 1));
    var first, last := src.next, src.prev;
    first.prev := dst;
    dst.prev := last;
    last.next := dst;
    dst.next := first;
    forall i | 0 <= i <= |nodes|
      ensures Linked(At(dst, nodes, i), At(dst, nodes, i + 1))
    {
      if 0 < i < |nodes| {
        assert Linked(At(src, nodes, i), At(src, nodes, i + 1));
      }
    }
  }

  function Swapped(nodes: seq<Node>, k: nat): seq<Node>
    requires k + 1 < |nodes|
  {
    nodes[k := nodes[k + 1]][k + 1 := nodes[k]]
  }

  // list_replace: y, linked nowhere, takes the place of x
  method ListReplace(x: Node, y: Node, ghost head: Node, ghost nodes: seq<Node>, ghost k: nat)
    requires Ring(head, nodes) && k < |nodes| && x == nodes[k] && y != head && y !in nodes
    modifies y`next, y`prev, x.next`prev, x.prev`next
    ensures Ring(head, nodes[k := y])
  {
    assert Linked(At(head, nodes, k), At(head, nodes, k + 1));
    assert Linked(At(head, nodes, k + 1), At(head, nodes, k + 2));
    y.next := x.next;
    y.next.prev := y;
    y.prev := x.prev;
    y.prev.next := y;
    ghost var r := nodes[k := y];
    forall i | 0 <= i <= |r|
      ensures Linked(At(head, r, i), At(head, r, i + 1))
    {
      if i != k && i != k + 1 {
        assert At(head, r, i) == At(head, nodes, i) && At(head, r, i + 1) == At(head, nodes, i + 1);
      }
    }
  }

  // list_swap of two neighbours: unlink the second, put it in the first's place, add the first after it
  method ListSwap(x: Node, y: Node, ghost head: Node, ghost nodes: seq<Node>, ghost k: nat)
    requires Ring(head, nodes) && k + 1 < |nodes| && x == nodes[k] && y == nodes[k + 1]
    modifies head, nodes
    ensures Ring(head, Swapped(nodes, k))
  {
    hide Ring, Distinct;
    RingClosed(head, nodes, k + 1);
    Neighbours(head, nodes, k);
    OnlyOnce(head, nodes, k);
    OnlyOnce(head, nodes, k + 1);
    var pos := y.prev;
    ListDel(y, head, nodes, k + 1);
    ghost var without := Removed(nodes, k + 1);
    RingClosed(head, without, k);
    ListReplace(x, y, head, without, k);
    if pos == x {
      pos := y;
    }
    ghost var replaced := without[k := y];
    RingClosed(head, replaced, k);
    ListAdd(x, pos, head, replaced, k + 1);
    assert Inserted(replaced, k + 1, x) == Swapped(nodes, k);
  }

  lemma Neighbours(head: Node, nodes: seq<Node>, k: nat)
    requires Ring(head, nodes) && k + 1 < |nodes|
    ensures nodes[k + 1].prev == nodes[k] && nodes[k].next == nodes[k + 1]
  {
    assert Linked(At(head, nodes, k + 1), At(head, nodes, k + 2));
  }

  lemma OnlyOnce(head: Node, nodes: seq<Node>, k: nat)
    requires Ring(head, nodes) && k < |nodes|
    ensures nodes[k] != head
    ensures forall i :: 0 <= i < |nodes| && i != k ==> nodes[i] != nodes[k]
  {
  }

  /** Neighbours in a ring are in the ring. */
  lemma RingClosed(head: Node, nodes: seq<Node>, k: nat)
    requires Ring(head, nodes) && k < |nodes|
    ensures nodes[k].next == head || nodes[k].next in nodes
    ensures nodes[k].prev == head || nodes[k].prev in nodes
  {
    assert Linked(At(head, nodes, k), At(head, nodes, k + 1));
    assert Linked(At(head, nodes, k + 1), At(head, nodes, k + 2));
  }
}
