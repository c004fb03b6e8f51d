/**
 The cluster topology build of lse_sched_cluster.c: CPUs with the same topology id become one
 cluster, clusters are inserted in order of capacity into a private list, and the finished list is
 spliced onto the global head; a CPU without an id rolls everything back.
 */
module Topology {
  import opened ListHead

  const MAX_CLUSTERS := 4  // MAX_LSE_CLUSTERS

  // cpumask_first of a mask that is not empty
  ghost function First(s: set<nat>): (m: nat)
    requires s != {}
    ensures m in s && forall x :: x in s ==> m <= x
  {
    LeastExists(s);
    var m :| m in s && forall x :: x in s ==> m <= x;
    m
  }

  lemma LeastExists(s: set<nat>)
    requires s != {}
    ensures exists m :: m in s && forall x :: x in s ==> m <= x
  {
    var m := Least(s);
  }

  lemma {:induction false} Least(s: set<nat>) returns (m: nat)
    requires s != {}
    ensures m in s && forall x :: x in s ==> m <= x
  {
    m :| m in s;
    var rest := s - {m};
    assert forall x :: x in s ==> x == m || x in rest;
    if rest != {} {
      var b := Least(rest);
      m := if m <= b then m else b;
    }
  }

  method CpumaskFirst(s: set<nat>, n: nat) returns (m: nat)
    requires s != {} && forall x :: x in s ==> x < n
    ensures m == First(s)
  {
    m := 0;
    while m !in s
      invariant forall x :: x in s ==> m <= x
      decreases n - m
    {
      m := m + 1;
    }
  }

  // arch_scale_cpu_capacity of a mask's first CPU
  ghost function Capacity(cap: seq<nat>, s: set<nat>): nat
    requires s != {} && forall x :: x in s ==> x < |cap|
  {
    cap[First(s)]
  }

  /** A cluster's capacity is that of its first CPU. */
  lemma CapacityIs(cap: seq<nat>, s: set<nat>, c: nat)
    requires c in s && (forall x :: x in s ==> c <= x < |cap|)
    ensures Capacity(cap, s) == cap[c]
  {
  }

  predicate InRange(s: set<nat>, n: nat) {
    s != {} && forall x :: x in s ==> x < n
  }

  ghost predicate Clusters(nodes: seq<Node>, n: nat) {
    forall x :: x in nodes ==> InRange(x.cpus, n)
  }

  function AllCpus(n: nat): (r: set<nat>)
    ensures forall x: nat :: x in r <==> x < n
  {
    if n == 0 then {} else AllCpus(n - 1) + {n - 1}
  }

  ghost predicate Sorted(nodes: seq<Node>, cap: seq<nat>)
    requires Clusters(nodes, |cap|)
  {
    forall i, j :: 0 <= i < j < |nodes| ==> Capacity(cap, nodes[i].cpus) <= Capacity(cap, nodes[j].cpus)
  }

  // The walk of insert_cluster: the stop after which x belongs.
  method FindPlace(x: Node, head: Node, cap: seq<nat>, ghost nodes: seq<Node>) returns (iter: Node, ghost k: nat)
    requires Ring(head, nodes) && Clusters(nodes, |cap|) && InRange(x.cpus, |cap|)
    ensures k <= |nodes| && iter == At(head, nodes, k)
    ensures forall i :: 0 <= i < k ==> Capacity(cap, nodes[i].cpus) <= Capacity(cap, x.cpus)
    ensures k < |nodes| ==> Capacity(cap, x.cpus) < Capacity(cap, nodes[k].cpus)
  {
    var mine := CpumaskFirst(x.cpus, |cap|);
    iter, k := head, 0;
    assert Linked(At(head, nodes, 0), At(head, nodes, 1));
    var tmp := head.next;
    while tmp != head
      invariant k <= |nodes| && iter == At(head, nodes, k) && tmp == At(head, nodes, k + 1)
      invariant forall i :: 0 <= i < k ==> Capacity(cap, nodes[i].cpus) <= Capacity(cap, x.cpus)
      decreases |nodes| - k
    {
      assert k < |nodes| && tmp == nodes[k];
      var theirs := CpumaskFirst(tmp.cpus, |cap|);
      if cap[mine] < cap[theirs] {
        return;
      }
      iter := tmp;
      k := k + 1;
      assert Linked(At(head, nodes, k), At(head, nodes, k + 1));
      tmp := tmp.next;
    }
  }

  /** insert_cluster: after every cluster of no larger capacity, before the first larger one. */
  method InsertCluster(x: Node, head: Node, cap: seq<nat>, ghost nodes: seq<Node>) returns (ghost k: nat)
    requires Ring(head, nodes) && x != head && x !in nodes
    requires Clusters(nodes, |cap|) && InRange(x.cpus, |cap|) && Sorted(nodes, cap)
    modifies x`next, x`prev, head`next, head`prev, nodes
    ensures k <= |nodes| && Ring(head, Inserted(nodes, k, x))
    ensures Clusters(Inserted(nodes, k, x), |cap|) && Sorted(Inserted(nodes, k, x), cap)
    ensures forall i :: 0 <= i < k ==> Capacity(cap, nodes[i].cpus) <= Capacity(cap, x.cpus)
    ensures forall i :: k <= i < |nodes| ==> Capacity(cap, x.cpus) < Capacity(cap, nodes[i].cpus)
  {
    var iter;
    iter, k := FindPlace(x, head, cap, nodes);
    InsertedSorted(nodes, k, x, cap);
    hide Capacity, Sorted, Clusters;
    assert Linked(At(head, nodes, k), At(head, nodes, k + 1));
    ListAdd(x, iter, head, nodes, k);
  }

  lemma InsertedSorted(nodes: seq<Node>, k: nat, x: Node, cap: seq<nat>)
    requires Clusters(nodes, |cap|) && InRange(x.cpus, |cap|) && Sorted(nodes, cap) && k <= |nodes|
    requires forall i :: 0 <= i < k ==> Capacity(cap, nodes[i].cpus) <= Capacity(cap, x.cpus)
    requires k < |nodes| ==> Capacity(cap, x.cpus) <= Capacity(cap, nodes[k].cpus)
    ensures Clusters(Inserted(nodes, k, x), |cap|) && Sorted(Inserted(nodes, k, x), cap)
  {
    var r := Inserted(nodes, k, x);
    assert forall i :: 0 <= i < |r| ==> r[i] == if i < k then nodes[i] else if i == k then x else nodes[i - 1];
    assert k < |nodes| ==> forall i :: k <= i < |nodes| ==> Capacity(cap, nodes[k].cpus) <= Capacity(cap, nodes[i].cpus);
  }

  lemma InsertedMembers(nodes: seq<Node>, k: nat, x: Node)
    requires k <= |nodes|
    ensures forall n :: n in Inserted(nodes, k, x) <==> n in nodes || n == x
  {
    assert nodes == nodes[..k] + nodes[k..];
  }

  // What building the topology came to.
  datatype Outcome = Built | RolledBack | TooMany  // TooMany is the BUG_ON in add_cluster

  class System {
    const ids: seq<int>       // cluster_id (package_id) of each possible CPU, -1 if unknown
    const cap: seq<nat>       // arch_scale_cpu_capacity of each possible CPU
    const head: Node          // lse_cluster_head
    const initCluster: Node   // init_cluster
    var cluster: seq<Node>    // lse_rq.cluster of each possible CPU
    var num: int              // lse_num_sched_clusters

    // init_clusters
    constructor (ids: seq<int>, cap: seq<nat>)
      requires |ids| == |cap|
      ensures Fresh() && this.ids == ids && this.cap == cap
    {
      this.ids, this.cap := ids, cap;
      var h := new Node({}, 0);
      var c := new Node(AllCpus(|ids|), 1024);
      ListAdd(c, h, h, [], 0);
      assert Inserted([], 0, c) == [c];
      head, initCluster := h, c;
      cluster := seq(|ids|, _ => c);
      num := 0;
    }

    // The state init_clusters leaves.
    ghost predicate Fresh()
      reads this, head, initCluster
    {
      && |ids| == |cap| == |cluster| && head != initCluster && num == 0
      && Ring(head, [initCluster])
      && forall c :: 0 <= c < |cluster| ==> cluster[c] == initCluster
    }

    function Siblings(c: nat): set<nat>
      requires c < |ids|
    {
      set d: nat | d < |ids| && ids[d] == ids[c]
    }

    // get_possible_siblings
    method GetPossibleSiblings(c: nat) returns (mask: set<nat>)
      requires c < |ids|
      ensures mask == if ids[c] == -1 then {} else Siblings(c)
    {
      mask := {};
      if ids[c] == -1 {
        return;
      }
      var d := 0;
      while d < |ids|
        invariant 0 <= d <= |ids|
        invariant mask == set e: nat | e < d && ids[e] == ids[c]
      {
        if ids[c] == ids[d] {
          mask := mask + {d};
        }
        d := d + 1;
      }
    }

    // The clusters of the CPUs outside rest, built so far on a private list.
    ghost predicate Partial(nodes: seq<Node>, rest: set<nat>)
      reads this
    {
      && |ids| == |cap| == |cluster|
      && Clusters(nodes, |cap|)
      && (forall n :: n in nodes ==> n.cpus == Siblings(First(n.cpus)))
      && (forall n, c :: n in nodes && c in n.cpus ==> cluster[c] == n && c !in rest)
      && (forall c: nat :: c < |ids| && c !in rest ==> cluster[c] in nodes && c in cluster[c].cpus)
      && (forall c: nat :: c in rest ==> c < |ids| && cluster[c] == initCluster)
    }

    // add_cluster past its BUG_ON
    method AddCluster(mask: set<nat>, newHead: Node, ghost nodes: seq<Node>, ghost rest: set<nat>, ghost i: nat)
      returns (ghost nodes': seq<Node>)
      requires Partial(nodes, rest) && Ring(newHead, nodes) && Sorted(nodes, cap)
      requires i in rest && i < |ids| && mask == Siblings(i) && mask <= rest
      modifies this`cluster, this`num, newHead, nodes
      ensures num == old(num) + 1
      ensures Partial(nodes', rest - mask) && Ring(newHead, nodes') && Sorted(nodes', cap)
      ensures |nodes'| == |nodes| + 1
      ensures forall k :: 0 <= k < |nodes'| ==> nodes'[k] in nodes || fresh(nodes'[k])
    {
      hide Sorted, Capacity;
      assert i in mask && InRange(mask, |cap|);
      var first := CpumaskFirst(mask, |cap|);
      var x := new Node(mask, cap[first]);
      var was := cluster;
      cluster := seq(|was|, c requires 0 <= c < |was| => if c in mask then x else was[c]);
      assert x !in nodes && x != newHead;
      ghost var k := InsertCluster(x, newHead, cap, nodes);
      nodes' := Inserted(nodes, k, x);
      InsertedMembers(nodes, k, x);
      assert First(mask) in mask && ids[First(mask)] == ids[i];
      num := num + 1;
    }

    /** cleanup_clusters: every cluster goes, its CPUs return to init_cluster. */
    method CleanupClusters(newHead: Node, ghost nodes: seq<Node>, ghost rest: set<nat>)
      requires Partial(nodes, rest) && Ring(newHead, nodes)
      modifies this`cluster, this`num, newHead, nodes
      ensures num == old(num) - |nodes| && |cluster| == |ids|
      ensures forall c :: 0 <= c < |cluster| ==> cluster[c] == initCluster
      ensures Ring(newHead, [])
    {
      assert Held(nodes);
      hide Partial, Held;
      ghost var left := nodes;
      assert Linked(At(newHead, left, 0), At(newHead, left, 1));
      var cur := newHead.next;
      while cur != newHead
        invariant num == old(num) - |nodes| + |left|
        invariant Ring(newHead, left) && cur == At(newHead, left, 1) && Held(left)
        invariant |left| <= |nodes| && left == nodes[|nodes| - |left|..]
        decreases |left|
      {
        assert Linked(At(newHead, left, 1), At(newHead, left, 2));
        var tmp := cur.next;
        FreeFirst(cur, newHead, left);
        left := left[1..];
        cur := tmp;
      }
      assert left == [];
      NothingHeld(left);
    }

    // Every CPU is on init_cluster or on one of these clusters that contains it.
    ghost predicate Held(nodes: seq<Node>)
      reads this
    {
      |cluster| == |ids| &&
      forall c :: 0 <= c < |cluster| ==> cluster[c] == initCluster || (cluster[c] in nodes && c in cluster[c].cpus)
    }

    lemma NothingHeld(nodes: seq<Node>)
      requires Held(nodes) && nodes == []
      ensures |cluster| == |ids| && forall c :: 0 <= c < |cluster| ==> cluster[c] == initCluster
    {
    }

    // One round of cleanup_clusters.
    method FreeFirst(x: Node, newHead: Node, ghost nodes: seq<Node>)
      requires Ring(newHead, nodes) && nodes != [] && x == nodes[0] && Held(nodes)
      modifies this`cluster, this`num, newHead, nodes
      ensures Ring(newHead, nodes[1..]) && Held(nodes[1..]) && num == old(num) - 1
    {
      ReleaseCpus(x.cpus);
      assert Held(nodes[1..]);
      UnlinkFirst(x, newHead, nodes);
      num := num - 1;
    }

    method ReleaseCpus(mask: set<nat>)
      modifies this`cluster
      ensures |cluster| == |old(cluster)|
      ensures forall c :: 0 <= c < |cluster| ==> cluster[c] == if c in mask then initCluster else old(cluster)[c]
    {
      var was := cluster;
      cluster := seq(|was|, c requires 0 <= c < |was| => if c in mask then initCluster else was[c]);
    }

    method UnlinkFirst(x: Node, newHead: Node, ghost nodes: seq<Node>)
      requires Ring(newHead, nodes) && nodes != [] && x == nodes[0]
      modifies newHead, nodes
      ensures Ring(newHead, nodes[1..])
    {
      RingClosed(newHead, nodes, 0);
      ListDel(x, newHead, nodes, 0);
      assert Removed(nodes, 0) == nodes[1..];
    }

    /** align_clusters: with exactly four clusters the two in the middle are put in descending order. */
    method AlignClusters(newHead: Node, ghost nodes: seq<Node>) returns (ghost nodes': seq<Node>)
      requires Ring(newHead, nodes) && Clusters(nodes, |cap|) && num == |nodes|
      modifies newHead, nodes
      ensures Ring(newHead, nodes')
      ensures num != 4 ==> nodes' == nodes
      ensures num == 4 ==>
                nodes' == if Capacity(cap, nodes[1].cpus) < Capacity(cap, nodes[2].cpus) then Swapped(nodes, 1) else nodes
    {
      nodes' := nodes;
      if num != 4 {
        return;
      }
      var cluster1, cluster2 := newHead, newHead;
      var capacity1, capacity2 := 0, 0;
      var i := 0;
      assert Linked(At(newHead, nodes, 0), At(newHead, nodes, 1));
      var tmp := newHead.next;
      while tmp != newHead
        invariant 0 <= i <= 4 && tmp == At(newHead, nodes, i + 1)
        invariant i >= 2 ==> cluster1 == nodes[1] && capacity1 == Capacity(cap, nodes[1].cpus)
        invariant i >= 3 ==> cluster2 == nodes[2] && capacity2 == Capacity(cap, nodes[2].cpus)
        decreases 4 - i
        modifies {}
      {
        assert tmp == nodes[i];
        var first := CpumaskFirst(tmp.cpus, |cap|);
        if i == 1 {
          cluster1 := tmp;
          capacity1 := cap[first];
        }
        if i == 2 {
          cluster2 := tmp;
          capacity2 := cap[first];
        }
        i := i + 1;
        assert Linked(At(newHead, nodes, i), At(newHead, nodes, i + 1));
        tmp := tmp.next;
      }
      if capacity1 < capacity2 {
        ListSwap(cluster1, cluster2, newHead, nodes, 1);
        nodes' := Swapped(nodes, 1);
      }
    }

    // assign_cluster_ids
    method AssignClusterIds(newHead: Node, ghost nodes: seq<Node>)
      requires |ids| == |cap| && Ring(newHead, nodes) && Clusters(nodes, |ids|)
      modifies nodes`id
      ensures Ring(newHead, nodes)
      ensures forall k :: 0 <= k < |nodes| ==> nodes[k].id == ids[First(nodes[k].cpus)]
    {
      ghost var j := 0;
      assert Linked(At(newHead, nodes, 0), At(newHead, nodes, 1));
      var cur := newHead.next;
      while cur != newHead
        invariant 0 <= j <= |nodes| && Ring(newHead, nodes) && cur == At(newHead, nodes, j + 1)
        invariant forall k :: 0 <= k < j ==> nodes[k].id == ids[First(nodes[k].cpus)]
        decreases |nodes| - j
      {
        var first := CpumaskFirst(cur.cpus, |ids|);
        cur.id := ids[first];
        j := j + 1;
        assert Linked(At(newHead, nodes, j), At(newHead, nodes, j + 1));
        cur := cur.next;
      }
    }

    // CPUs with valid, pairwise different ids.
    ghost predicate DifferentIds(s: seq<nat>) {
      && (forall k :: 0 <= k < |s| ==> s[k] < |ids| && ids[s[k]] != -1)
      && (forall j, k :: 0 <= j < k < |s| ==> ids[s[j]] != ids[s[k]])
    }

    ghost predicate SeenId(s: seq<nat>, c: nat)
      requires c < |ids| && DifferentIds(s)
    {
      exists k :: 0 <= k < |s| && ids[s[k]] == ids[c]
    }

    // Clusters in the order the scheduler relies on.
    ghost predicate Ordered(nodes: seq<Node>)
    {
      && Clusters(nodes, |cap|)
      && (|nodes| != 4 ==> Sorted(nodes, cap))
      && (|nodes| == 4 ==>
            forall k :: 0 <= k < 4 ==>
              Capacity(cap, nodes[0].cpus) <= Capacity(cap, nodes[k].cpus) <= Capacity(cap, nodes[3].cpus))
      && (|nodes| == 4 ==> Capacity(cap, nodes[1].cpus) >= Capacity(cap, nodes[2].cpus))
    }

    /** When the siblings of an unassigned CPU are looked up, none of them is assigned yet. */
    lemma SiblingsUnassigned(nodes: seq<Node>, rest: set<nat>, i: nat)
      requires Partial(nodes, rest) && i in rest && i < |ids|
      ensures Siblings(i) <= rest
    {
    }

    /** update_cluster_topology. If every CPU has an id and there are at most four ids, the final clusters
        partition the CPUs by id, each CPU's cluster contains it, and the spliced list is a well-formed
        circular list in capacity order. If some CPU has no id, everything is as init_clusters left it. */
    method UpdateClusterTopology() returns (outcome: Outcome, ghost nodes: seq<Node>)
      requires Fresh() && |ids| > 0
      modifies this`cluster, this`num, head
      ensures outcome.Built? ==>
                && (forall c :: 0 <= c < |ids| ==> ids[c] != -1)
                && Ring(head, nodes) && num == |nodes| <= 4
                && Partial(nodes, {}) && Ordered(nodes)
                && forall k :: 0 <= k < |nodes| ==> nodes[k].id == ids[First(nodes[k].cpus)]
      ensures outcome.RolledBack? ==> (exists c :: 0 <= c < |ids| && ids[c] == -1) && Fresh()
      ensures outcome.TooMany? ==> exists s :: |s| > 4 && DifferentIds(s)
    {
      hide Partial, Sorted, Capacity, SeenId;
      var newHead := new Node({}, 0);
      outcome, nodes := BuildClusters(newHead);
      if outcome.Built? {
        nodes := AlignAndOrder(newHead, nodes);
        AssignClusterIds(newHead, nodes);
        assert Linked(At(newHead, nodes, 0), At(newHead, nodes, 1));
        assert Linked(At(newHead, nodes, |nodes|), At(newHead, nodes, |nodes| + 1));
        MoveList(head, newHead, nodes);
      }
    }

    // The loop over a shrinking mask.
    method BuildClusters(newHead: Node) returns (outcome: Outcome, ghost nodes: seq<Node>)
      requires Fresh() && |ids| > 0 && Ring(newHead, [])
      requires newHead != head && newHead != initCluster
      modifies this`cluster, this`num, newHead
      ensures fresh(nodes)
      ensures outcome.Built? ==>
                && (forall c :: 0 <= c < |ids| ==> ids[c] != -1)
                && Ring(newHead, nodes) && 0 < num == |nodes| <= MAX_CLUSTERS
                && Partial(nodes, {}) && Sorted(nodes, cap)
      ensures outcome.RolledBack? ==>
                && (exists c :: 0 <= c < |ids| && ids[c] == -1)
                && num == 0 && |cluster| == |ids| && forall c :: 0 <= c < |ids| ==> cluster[c] == initCluster
      ensures outcome.TooMany? ==> exists s :: |s| > MAX_CLUSTERS && DifferentIds(s)
    {
      hide Capacity;
      var rest := AllCpus(|ids|);
      nodes := [];
      ghost var seen: seq<nat> := [];
      var i := 0;
      while i < |ids|
        invariant 0 <= i <= |ids| && fresh(nodes)
        invariant Progress(newHead, nodes, rest, seen)
        invariant forall c :: 0 <= c < i ==> SeenId(seen, c)
      {
        if i in rest {
          var mask := GetPossibleSiblings(i);
          if mask == {} {
            assert ids[i] == -1 by { assert i in Siblings(i); }
            CleanupClusters(newHead, nodes, rest);
            return RolledBack, nodes;
          }
          if num >= MAX_CLUSTERS {
            assert DifferentIds(seen + [i]);
            return TooMany, nodes;
          }
          nodes := TakeSiblings(i, mask, newHead, nodes, rest, seen);
          rest := rest - mask;
          seen := seen + [i];
        }
        i := i + 1;
      }
      assert rest == {};
      forall c | 0 <= c < |ids|
        ensures ids[c] != -1
      {
        assert SeenId(seen, c);
      }
      outcome := Built;
    }

    // Where the loop stands: the CPUs outside rest are those whose id has been seen.
    ghost predicate Progress(newHead: Node, nodes: seq<Node>, rest: set<nat>, seen: seq<nat>)
      reads this, newHead, nodes
    {
      && Ring(newHead, nodes) && Partial(nodes, rest) && Sorted(nodes, cap)
      && num == |nodes| == |seen| <= MAX_CLUSTERS && DifferentIds(seen)
      && forall c: nat :: c in rest <==> c < |ids| && !SeenId(seen, c)
    }

    method TakeSiblings(i: nat, mask: set<nat>, newHead: Node, ghost nodes: seq<Node>, ghost rest: set<nat>,
                        ghost seen: seq<nat>)
      returns (ghost nodes': seq<Node>)
      requires Progress(newHead, nodes, rest, seen) && i in rest && ids[i] != -1
      requires mask == Siblings(i) && num < MAX_CLUSTERS
      modifies this`cluster, this`num, newHead, nodes
      ensures Progress(newHead, nodes', rest - mask, seen + [i])
      ensures forall c: nat :: c < |ids| && SeenId(seen, c) ==> SeenId(seen + [i], c)
      ensures SeenId(seen + [i], i)
      ensures forall k :: 0 <= k < |nodes'| ==> nodes'[k] in nodes || fresh(nodes'[k])
    {
      SiblingsUnassigned(nodes, rest, i);
      SeenMore(seen, i);
      hide SeenId, DifferentIds;
      nodes' := AddCluster(mask, newHead, nodes, rest, i);
    }

    lemma SeenMore(seen: seq<nat>, i: nat)
      requires DifferentIds(seen) && i < |ids| && ids[i] != -1 && !SeenId(seen, i)
      ensures DifferentIds(seen + [i])
      ensures forall c: nat :: c < |ids| ==> (SeenId(seen + [i], c) <==> SeenId(seen, c) || c in Siblings(i))
      ensures SeenId(seen + [i], i)
    {
      var s := seen + [i];
      forall c: nat | c < |ids|
        ensures SeenId(s, c) <==> SeenId(seen, c) || c in Siblings(i)
      {
        if SeenId(seen, c) {
          var k :| 0 <= k < |seen| && ids[seen[k]] == ids[c];
          assert s[k] == seen[k];
        }
        if c in Siblings(i) {
          assert s[|seen|] == i;
        }
      }
    }

    method AlignAndOrder(newHead: Node, ghost nodes: seq<Node>) returns (ghost nodes': seq<Node>)
      requires Ring(newHead, nodes) && Partial(nodes, {}) && Sorted(nodes, cap) && num == |nodes|
      modifies newHead, nodes
      ensures Ring(newHead, nodes') && |nodes'| == |nodes| && Partial(nodes', {}) && Ordered(nodes')
      ensures forall k :: 0 <= k < |nodes'| ==> nodes'[k] in nodes
    {
      nodes' := AlignClusters(newHead, nodes);
      hide Ring;
      if num == 4 {
        SwappedMembers(nodes, nodes');
        AlignedOrder(nodes, nodes');
      }
    }

    lemma AlignedOrder(nodes: seq<Node>, nodes': seq<Node>)
      requires |nodes| == 4 && Clusters(nodes, |cap|) && Sorted(nodes, cap) && Clusters(nodes', |cap|)
      requires nodes' == if Capacity(cap, nodes[1].cpus) < Capacity(cap, nodes[2].cpus) then Swapped(nodes, 1) else nodes
      ensures Ordered(nodes')
    {
      hide Capacity;
      assert forall k :: 0 <= k < 4 ==>
          Capacity(cap, nodes[0].cpus) <= Capacity(cap, nodes[k].cpus) <= Capacity(cap, nodes[3].cpus);
    }

    lemma SwappedMembers(nodes: seq<Node>, nodes': seq<Node>)
      requires |nodes| == 4 && (nodes' == nodes || nodes' == Swapped(nodes, 1))
      ensures forall n :: n in nodes' <==> n in nodes
    {
      assert nodes' == [nodes[0], nodes'[1], nodes'[2], nodes[3]];
      assert nodes == [nodes[0], nodes[1], nodes[2], nodes[3]];
    }
  }
}
