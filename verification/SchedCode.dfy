/** Map, MapNode and the pool of nodes of ass1ds.cpp as code, and the operations that move
    processes between the priority queue and the round robin queue. */
module SchedCode {
  import opened SchedSpec
  import opened SchedTree
  import opened SchedPools
  import opened SchedNodes
  import opened SchedQueues

  const NPROC := 64
  const NPROCLIST := 2 * NPROC
  const NPROCMAP := 2 * NPROC

  class Map {
    var root: MapNode?

    constructor ()
      ensures root == null
    {
      root := null;
    }
  }

  /** m holds the fields of these nodes. */
  ghost predicate NodesAre(nodes: set<MapNode>, m: NodeMem)
    reads nodes
  {
    m.Keys == nodes && forall n {:trigger m[n]} | n in nodes :: m[n] == NodeVal(n.key, n.next, n.parent, n.left, n.right)
  }

  /** What put does, from shape s and free nodes f to s' and f': it inserts p under key in the tree,
      or changes nothing because it lacks a link, or a node for a new key. */
  ghost predicate PutEffect(home: map<LinkedList, MapNode>, key: int, p: Proc, t: Tree, s: Shape, f: seq<MapNode>,
                            ok: bool, t': Tree, s': Shape, f': seq<MapNode>) {
    && (ok <==> s.freeL != [] && (HasKey(InOrder(t), key) || f != []))
    && InOrder(t') == (if ok then SchedSpec.Put(InOrder(t), key, p) else InOrder(t))
    && |s'.freeL| == |s.freeL| - (if ok then 1 else 0)
    && |f'| == |f| - (if ok && !HasKey(InOrder(t), key) then 1 else 0)
    && SameOutside(home, s.queues, s'.queues)
  }

  lemma {:induction false} PutEffectNew(ns: NodeState, t: Tree, root: MapNode?, o: Tree, oroot: MapNode?, key: int, p: Proc, s: Shape, s': Shape)
    requires SchedOk(ns, s.queues, t, root, o, oroot) && !Found(t, key) && ns.freeN != []
    requires TookNode(s, ns.freeN, s', ns.freeN[1..], p)
    ensures PutEffect(ns.home, key, p, t, s, ns.freeN, true, TreePut(t, key, p, ns.freeN[0]), s', ns.freeN[1..])
  {
    FreeNode(ns, s.queues, t, root, o, oroot);
    FoundIsHasKey(t, key);
    InOrderPut(t, key, p, ns.freeN[0]);
  }

  lemma {:induction false} PutEffectNone(ns: NodeState, t: Tree, root: MapNode?, o: Tree, oroot: MapNode?, key: int, p: Proc, s: Shape)
    requires SchedOk(ns, s.queues, t, root, o, oroot) && (s.freeL == [] || (!Found(t, key) && ns.freeN == []))
    ensures PutEffect(ns.home, key, p, t, s, ns.freeN, false, t, s, ns.freeN)
  {
    FoundIsHasKey(t, key);
  }

  lemma {:induction false} PutEffectFound(ns: NodeState, t: Tree, root: MapNode?, o: Tree, oroot: MapNode?, key: int, p: Proc, s: Shape, e: MapNode)
    requires SchedOk(ns, s.queues, t, root, o, oroot) && Found(t, key) && e == End(t, key) && s.freeL != []
    requires e.listOfProcs in s.chains && e.listOfProcs in s.queues
    ensures PutEffect(ns.home, key, p, t, s, ns.freeN, true, TreePut(t, key, p, e), EnqueueShape(s, e.listOfProcs, p), ns.freeN)
  {
    EndInUse(ns, s.queues, t, root, o, oroot, key);
    FoundIsHasKey(t, key);
    InOrderPut(t, key, p, e);
  }

  /** What extractMin does: it takes the first process of the first bucket and gives back its link,
      and the node if that was its only process. */
  ghost predicate ExtractEffect(home: map<LinkedList, MapNode>, t: Tree, s: Shape, f: seq<MapNode>,
                                p: Option<Proc>, t': Tree, s': Shape, f': seq<MapNode>) {
    var bs := InOrder(t);
    if bs == [] then p == None && t' == t && s' == s && f' == f
    else
      && bs[0].procs != [] && p == Some(bs[0].procs[0]) && InOrder(t') == SchedSpec.ExtractMin(bs)
      && |s'.freeL| == |s.freeL| + 1 && |f'| == |f| + |bs| - |InOrder(t')|
      && SameOutside(home, s.queues, s'.queues)
  }

  lemma {:induction false} ExtractEffectIs(ns: NodeState, t: Tree, root: MapNode, o: Tree, oroot: MapNode?, s: Shape, f': seq<MapNode>)
    requires SchedOk(ns, s.queues, t, root, o, oroot) && t.Node? && Least(t).procs != []
    requires Least(t).id.listOfProcs in s.chains && Least(t).id.listOfProcs in s.queues
    requires |s.chains[Least(t).id.listOfProcs]| > 0 && |s.queues[Least(t).id.listOfProcs]| > 0
    requires f' == if |Least(t).procs| == 1 then [Least(t).id] + ns.freeN else ns.freeN
    ensures ExtractEffect(ns.home, t, s, ns.freeN, Some(Least(t).procs[0]), TreeExtract(t),
                          RemoveShape(s, Least(t).id.listOfProcs, 0), f')
  {
    LeastIn(t);
    LeastCell(ns, s.queues, t, root, o, oroot);
    InOrderExtract(t);
  }

  /** Between these two states a free node and a free link were taken for process p. */
  ghost predicate TookNode(s: Shape, freeN: seq<MapNode>, s': Shape, freeN': seq<MapNode>, p: Proc) {
    && freeN != [] && freeN' == freeN[1..] && s.freeL != []
    && freeN[0].listOfProcs in s.chains && freeN[0].listOfProcs in s.queues
    && s' == EnqueueShape(s, freeN[0].listOfProcs, p)
  }

  /** Lists that do not belong to a node have the same processes in both. */
  ghost predicate SameOutside(home: map<LinkedList, MapNode>, q: Queues, q': Queues) {
    forall l | l in q && l !in home :: l in q' && q'[l] == q[l]
  }

  class Scheduler {
    const pool: QueuePool
    const priorityQ: Map
    const roundRobinQ: LinkedList
    const runningProcHolder: LinkedList
    /** The head of the free list of nodes. */
    var freeNodes: MapNode?
    ghost var nodes: set<MapNode>
    ghost var ns: NodeState
    /** The tree of the priority queue. */
    ghost var tree: Tree

    /** initSchedDS before its two loops. */
    constructor ()
      ensures Valid() && tree == Leaf && RoundRobin() == [] && Running() == [] && LinksLeft() == 0 && NodesLeft() == 0
      ensures fresh(pool) && fresh(priorityQ) && nodes == {} && pool.links == {}
      ensures fresh(roundRobinQ) && fresh(runningProcHolder) && pool.lists == {roundRobinQ, runningProcHolder}
    {
      pool := new QueuePool();
      priorityQ := new Map();
      roundRobinQ := new LinkedList();
      runningProcHolder := new LinkedList();
      freeNodes := null;
      nodes, ns, tree := {}, NodeState(map[], null, [], map[]), Leaf;
      new;
      hide QueuePool.Valid;
      NoNodes(pool.shape.queues);
      hide SchedOk;
      hide NodesAre;
      hide Scheduler.NodesLeft;
      hide Scheduler.LinksLeft;
      hide Scheduler.RoundRobin;
      hide Scheduler.Running;
      AdmitLists();
    }

    /** The two standalone lists join the lists of the pool. */
    method AdmitLists()
      requires Holds(Leaf, null, Leaf, null) && pool.lists == {} && ns.home == map[] && tree == Leaf && priorityQ.root == null
      requires roundRobinQ.first == null && roundRobinQ.last == null && runningProcHolder.first == null && runningProcHolder.last == null
      requires roundRobinQ != runningProcHolder && pool.shape.freeL == [] && ns.freeN == []
      modifies pool`lists, pool`mem, pool`shape
      ensures Valid() && RoundRobin() == [] && Running() == [] && LinksLeft() == 0 && NodesLeft() == 0
      ensures pool.lists == {roundRobinQ, runningProcHolder}
    {
      hide QueuePool.Valid;
      hide NodesAre;
      ghost var q0 := pool.shape.queues;
      pool.AddList(roundRobinQ);
      pool.AddList(runningProcHolder);
      NodeListsAtHome(ns, q0, Leaf, null, Leaf, null);
      ForeignQueue(ns, q0, pool.shape.queues, Leaf, null, Leaf, null);
    }

    /** The values recorded for the cells are their values. */
    ghost predicate Cells()
      reads this, pool, pool.links, pool.lists, nodes
    {
      pool.Valid() && NodesAre(nodes, ns.mem) && freeNodes == ns.free
    }

    /** The two maps below root and oroot are t and o, and all other nodes are free. */
    ghost predicate Holds(t: Tree, root: MapNode?, o: Tree, oroot: MapNode?)
      reads this, pool, pool.links, pool.lists, nodes
    {
      Cells() && SchedOk(ns, pool.shape.queues, t, root, o, oroot)
    }

    /** The nodes have taken these values. */
    ghost method RecordNodes(ns': NodeState, t: Tree, root: MapNode?, o: Tree, oroot: MapNode?)
      requires pool.Valid() && NodesAre(nodes, ns'.mem) && freeNodes == ns'.free
      requires SchedOk(ns', pool.shape.queues, t, root, o, oroot)
      modifies this`ns
      ensures Holds(t, root, o, oroot) && ns == ns'
    {
      hide NodesAre;
      hide QueuePool.Valid;
      hide SchedOk;
      ns := ns';
    }

    /** MapNode::put's search: the node at which the search of key in t ends. */
    method FindEnd(root: MapNode, key: int, ghost t: Tree, ghost q: Queues) returns (node: MapNode)
      requires NodesAre(nodes, ns.mem) && TreeAt(ns.mem, q, t, root, null) && t.Node?
      ensures node == End(t, key) && node in ns.mem && ns.mem[node].key == node.key && (node.key == key <==> Found(t, key))
      ensures !Found(t, key) ==> (key < node.key ==> node.left == null) && (key > node.key ==> node.right == null)
    {
      node := root;
      ghost var sub: Tree, par: MapNode? := t, null;
      while true
        invariant sub.Node? && TreeAt(ns.mem, q, sub, node, par)
        invariant End(sub, key) == End(t, key) && Found(sub, key) == Found(t, key)
        decreases sub
      {
        assert ns.mem[node] == NodeVal(node.key, node.next, node.parent, node.left, node.right);
        if key == node.key {
          return;
        } else if key < node.key {
          if node.left == null {
            return;
          }
          sub, par, node := sub.left, node, node.left;
        } else {
          if node.right == null {
            return;
          }
          sub, par, node := sub.right, node, node.right;
        }
      }
    }

    /** MapNode::getMinNode */
    method GetMinNode(root: MapNode, ghost t: Tree, ghost q: Queues) returns (node: MapNode)
      requires NodesAre(nodes, ns.mem) && TreeAt(ns.mem, q, t, root, null) && t.Node?
      ensures node == Least(t).id && node in nodes && node.key == Least(t).key && node.left == null
    {
      node := root;
      ghost var sub: Tree, par: MapNode? := t, null;
      assert ns.mem[node] == NodeVal(node.key, node.next, node.parent, node.left, node.right);
      while node.left != null
        invariant sub.Node? && TreeAt(ns.mem, q, sub, node, par) && Least(sub) == Least(t)
        invariant ns.mem[node] == NodeVal(node.key, node.next, node.parent, node.left, node.right)
        decreases sub
      {
        sub, par, node := sub.left, node, node.left;
        assert ns.mem[node] == NodeVal(node.key, node.next, node.parent, node.left, node.right);
      }
    }

    /** Map::getMinKey */
    method GetMinKey(m: Map, ghost t: Tree, ghost o: Tree, ghost oroot: MapNode?) returns (key: Option<int>)
      requires Holds(t, m.root, o, oroot)
      ensures key == if Entries(InOrder(t)) == [] then None else Some(Entries(InOrder(t))[0].key)
    {
      if m.root == null {
        return None;
      }
      LeastCell(ns, pool.shape.queues, t, m.root, o, oroot);
      ExtractMinDropsFirst(InOrder(t));
      var node := GetMinNode(m.root, t, pool.shape.queues);
      key := Some(node.key);
    }

    /** allocNode(key) */
    method AllocNode(key: int) returns (node: MapNode)
      requires NodesAre(nodes, ns.mem) && freeNodes != null && freeNodes in ns.mem
      modifies this`freeNodes, nodes`next, nodes`key
      ensures node == old(freeNodes) && freeNodes == ns.mem[node].next
      ensures NodesAre(nodes, ns.mem[node := ns.mem[node].(next := null, key := key)])
    {
      node := freeNodes;
      freeNodes := node.next;
      node.next := null;
      node.key := key;
    }

    method DeallocNode(node: MapNode, ghost m: NodeMem)
      requires NodesAre(nodes, m) && node in m
      modifies this`freeNodes, nodes`next, nodes`parent, nodes`left, nodes`right
      ensures freeNodes == node
      ensures NodesAre(nodes, m[node := NodeVal(m[node].key, old(freeNodes), null, null, null)])
    {
      node.parent, node.left, node.right := null, null, null;
      node.next := freeNodes;
      freeNodes := node;
    }

    /** The first free node and an attempt to put p on its list. */
    method TakeNodeFor(p: Proc, key: int) returns (node: MapNode, ok: bool)
      requires pool.Valid() && NodesAre(nodes, ns.mem) && freeNodes != null && freeNodes in ns.mem && freeNodes.listOfProcs in pool.lists
      modifies this`freeNodes, nodes, pool`freeLinks, pool`shape, pool`mem, pool.links, pool.lists
      ensures pool.Valid() && node == old(freeNodes) && freeNodes == ns.mem[node].next
      ensures ok <==> old(pool.shape.freeL) != []
      ensures pool.shape == if ok then EnqueueShape(old(pool.shape), node.listOfProcs, p) else old(pool.shape)
      ensures NodesAre(nodes, ns.mem[node := ns.mem[node].(next := null, key := key)])
    {
      hide NodesAre;
      hide QueuePool.Valid;
      node := AllocNode(key);
      ok := pool.Enqueue(node.listOfProcs, p);
    }

    /** allocNode(p, key): a node that holds p, or null after giving back what it took. */
    method NewNode(p: Proc, key: int) returns (node: MapNode?)
      requires pool.Valid() && NodesAre(nodes, ns.mem)
      requires freeNodes != null ==> freeNodes in ns.mem && freeNodes.listOfProcs in pool.lists
      requires freeNodes != null ==> ns.mem[freeNodes] == NodeVal(ns.mem[freeNodes].key, ns.mem[freeNodes].next, null, null, null)
      modifies this`freeNodes, nodes, pool`freeLinks, pool`shape, pool`mem, pool.links, pool.lists
      ensures pool.Valid()
      ensures node != null <==> old(freeNodes) != null && old(pool.shape.freeL) != []
      ensures node != null ==>
                && node == old(freeNodes) && freeNodes == ns.mem[node].next
                && NodesAre(nodes, ns.mem[node := NodeVal(key, null, null, null, null)])
                && pool.shape == EnqueueShape(old(pool.shape), node.listOfProcs, p)
      ensures node == null ==>
                && freeNodes == old(freeNodes) && pool.shape == old(pool.shape)
                && NodesAre(nodes, if freeNodes == null then ns.mem else ns.mem[freeNodes := ns.mem[freeNodes].(key := key)])
    {
      hide NodesAre;
      hide QueuePool.Valid;
      if freeNodes == null {
        return null;
      }
      var ok;
      node, ok := TakeNodeFor(p, key);
      if !ok {
        ghost var m := ns.mem;
        DeallocNode(node, m[node := m[node].(next := null, key := key)]);
        GivenBack(m, node, key);
        node := null;
      }
    }

    /** allocNode(p, key) between two states of the maps: on failure everything is as before. */
    method NewNodeFor(p: Proc, key: int, ghost t: Tree, ghost root: MapNode?, ghost o: Tree, ghost oroot: MapNode?)
      returns (node: MapNode?)
      requires Holds(t, root, o, oroot)
      modifies this`freeNodes, this`ns, nodes, pool`freeLinks, pool`shape, pool`mem, pool.links, pool.lists
      ensures pool.Valid()
      ensures node != null <==> old(ns.freeN) != [] && old(pool.shape.freeL) != []
      ensures node == null ==> Holds(t, root, o, oroot) && pool.shape == old(pool.shape)
      ensures node == null ==> ns.freeN == old(ns.freeN) && ns.home == old(ns.home)
      ensures node != null ==>
                && node == old(ns.freeN)[0] && node in ns.mem && node.listOfProcs in old(pool.shape.chains) && ns == old(ns)
                && freeNodes == ns.mem[node].next
                && NodesAre(nodes, ns.mem[node := NodeVal(key, null, null, null, null)])
                && pool.shape == EnqueueShape(old(pool.shape), node.listOfProcs, p)
                && pool.shape.queues == old(pool.shape.queues)[node.listOfProcs := [p]]
    {
      hide NodesAre;
      hide QueuePool.Valid;
      hide SchedOk;
      ghost var ns0, q0 := ns, pool.shape.queues;
      FreeNode(ns0, q0, t, root, o, oroot);
      node := NewNode(p, key);
      if node == null {
        if freeNodes != null {
          RekeyFree(ns0, q0, t, root, o, oroot, key);
          RecordNodes(ns0.(mem := ns0.mem[freeNodes := ns0.mem[freeNodes].(key := key)]), t, root, o, oroot);
        }
      } else {
        assert q0[node.listOfProcs] + [p] == [p];
      }
    }

    /** Hangs node below e, on the side of its key. */
    method HangBelow(e: MapNode, node: MapNode, ghost m: NodeMem)
      requires NodesAre(nodes, m) && e in m && node in m && e != node && m[node].key != m[e].key
      modifies nodes`left, nodes`right, nodes`parent
      ensures NodesAre(nodes, m[e := if m[node].key < m[e].key then m[e].(left := node) else m[e].(right := node)]
                               [node := m[node].(parent := e)])
    {
      if node.key < e.key {
        e.left := node;
      } else {
        e.right := node;
      }
      node.parent := e;
    }

    /** MapNode::put at node e, which lacks the child that key asks for. */
    method PutBelow(e: MapNode, p: Proc, key: int, ghost t: Tree, ghost root: MapNode?, ghost o: Tree, ghost oroot: MapNode?)
      returns (ok: bool, ghost t': Tree)
      requires Holds(t, root, o, oroot) && t.Node? && !Found(t, key) && e == End(t, key) && e in ns.mem && key != ns.mem[e].key
      modifies this`freeNodes, this`ns, nodes, pool`freeLinks, pool`shape, pool`mem, pool.links, pool.lists
      ensures Holds(t', root, o, oroot) && ns.home == old(ns.home)
      ensures PutEffect(ns.home, key, p, t, old(pool.shape), old(ns.freeN), ok, t', pool.shape, ns.freeN)
    {
      hide NodesAre;
      hide QueuePool.Valid;
      hide SchedOk;
      hide PutEffect;
      hide Filed;
      hide TreePut;
      ghost var ns0, q0, s0 := ns, pool.shape.queues, pool.shape;
      EndInUse(ns0, q0, t, root, o, oroot, key);
      var node := NewNodeFor(p, key, t, root, o, oroot);
      if node == null {
        PutEffectNone(ns0, t, root, o, oroot, key, p, s0);
        return false, t;
      }
      PutEffectNew(ns0, t, root, o, oroot, key, p, s0, pool.shape);
      LinkBelow(e, node, p, key, t, root, o, oroot, q0);
      t' := TreePut(t, key, p, node);
      ok := true;
    }

    /** The new node becomes the child of e. */
    method LinkBelow(e: MapNode, node: MapNode, ghost p: Proc, key: int, ghost t: Tree, ghost root: MapNode?, ghost o: Tree,
                     ghost oroot: MapNode?, ghost q: Queues)
      requires pool.Valid() && SchedOk(ns, q, t, root, o, oroot) && pool.shape.queues == q[node.listOfProcs := [p]]
      requires t.Node? && !Found(t, key) && e == End(t, key) && e in ns.mem && key != ns.mem[e].key && e != node
      requires ns.freeN != [] && node == ns.freeN[0] && node in ns.mem && freeNodes == ns.mem[node].next
      requires NodesAre(nodes, ns.mem[node := NodeVal(key, null, null, null, null)])
      modifies this`ns, nodes`left, nodes`right, nodes`parent
      ensures Holds(TreePut(t, key, p, node), root, o, oroot) && ns.home == old(ns.home) && ns.freeN == old(ns.freeN)[1..]
    {
      hide NodesAre;
      hide QueuePool.Valid;
      hide SchedOk;
      hide Filed;
      hide TreePut;
      ghost var ns0 := ns;
      PutFresh(ns0, q, t, root, o, oroot, key, p);
      FiledInSteps(ns0, t, key, e, node);
      HangBelow(e, node, ns0.mem[node := NodeVal(key, null, null, null, null)]);
      RecordNodes(NodeState(Filed(ns0, t, key), ns0.mem[node].next, ns0.freeN[1..], ns0.home), TreePut(t, key, p, node), root, o, oroot);
    }

    /** The new root that Map::put gives an empty map; null if there is no node or no link left. */
    method PutFirst(p: Proc, key: int, ghost o: Tree, ghost oroot: MapNode?) returns (node: MapNode?, ghost t': Tree)
      requires Holds(Leaf, null, o, oroot)
      modifies this`freeNodes, this`ns, nodes, pool`freeLinks, pool`shape, pool`mem, pool.links, pool.lists
      ensures Holds(t', node, o, oroot) && ns.home == old(ns.home)
      ensures PutEffect(ns.home, key, p, Leaf, old(pool.shape), old(ns.freeN), node != null, t', pool.shape, ns.freeN)
    {
      hide NodesAre;
      hide QueuePool.Valid;
      hide SchedOk;
      hide PutEffect;
      ghost var ns0, q0, s0 := ns, pool.shape.queues, pool.shape;
      node := NewNodeFor(p, key, Leaf, null, o, oroot);
      if node == null {
        PutEffectNone(ns0, Leaf, null, o, oroot, key, p, s0);
        return null, Leaf;
      }
      PutEffectNew(ns0, Leaf, null, o, oroot, key, p, s0, pool.shape);
      PutFresh(ns0, q0, Leaf, null, o, oroot, key, p);
      t' := TreePut(Leaf, key, p, node);
      RecordNodes(NodeState(Filed(ns0, Leaf, key), ns0.mem[node].next, ns0.freeN[1..], ns0.home), t', node, o, oroot);
    }

    /** MapNode::put at node e, which has the key. */
    method PutAt(e: MapNode, p: Proc, key: int, ghost t: Tree, ghost root: MapNode?, ghost o: Tree, ghost oroot: MapNode?)
      returns (ok: bool, ghost t': Tree)
      requires Holds(t, root, o, oroot) && Found(t, key) && e == End(t, key)
      modifies pool`freeLinks, pool`shape, pool`mem, pool.links, pool.lists
      ensures Holds(t', root, o, oroot)
      ensures PutEffect(ns.home, key, p, t, old(pool.shape), ns.freeN, ok, t', pool.shape, ns.freeN)
    {
      hide NodesAre;
      hide QueuePool.Valid;
      hide SchedOk;
      hide PutEffect;
      ghost var s0 := pool.shape;
      EndInUse(ns, s0.queues, t, root, o, oroot, key);
      PutExisting(ns, s0.queues, t, root, o, oroot, key, p, e);
      ok := pool.Enqueue(e.listOfProcs, p);
      t' := if ok then TreePut(t, key, p, e) else t;
      if ok {
        PutEffectFound(ns, t, root, o, oroot, key, p, s0, e);
      } else {
        PutEffectNone(ns, t, root, o, oroot, key, p, s0);
      }
    }

    /** The end of Map::extractMin: node, the leftmost one, leaves the tree and returns to the pool. */
    method Unlink(root: MapNode, node: MapNode) returns (root': MapNode?, ghost m: NodeMem)
      requires NodesAre(nodes, ns.mem) && node in nodes && root in nodes && (node.right != null ==> node.right in nodes && node.right != node)
      requires node == root ==> node.parent == null
      requires node != root ==>
                 node.parent != null && node.parent in nodes && node.parent != node && node.parent != node.right
      modifies this`freeNodes, nodes`next, nodes`parent, nodes`left, nodes`right
      ensures root' == if node == root then old(node.right) else root
      ensures freeNodes == node && NodesAre(nodes, m) && m[node] == NodeVal(node.key, old(freeNodes), null, null, null)
      ensures Bypassed(ns.mem, m, root, node)
    {
      m := ns.mem;
      if node == root {
        root' := node.right;
        if root' != null {
          root'.parent := null;
          m := m[root' := m[root'].(parent := null)];
        }
      } else {
        root' := root;
        var parent := node.parent;
        parent.left := node.right;
        m := m[parent := m[parent].(left := node.right)];
        if node.right != null {
          node.right.parent := parent;
          m := m[node.right := m[node.right].(parent := parent)];
        }
      }
      ghost var free := freeNodes;
      DeallocNode(node, m);
      m := m[node := NodeVal(node.key, free, null, null, null)];
    }

    /** extractMin's dequeue from the least node, when other processes stay on its list. */
    method ExtractFrom(node: MapNode, ghost t: Tree, ghost root: MapNode, ghost o: Tree, ghost oroot: MapNode?)
      returns (p: Proc, empty: bool)
      requires Holds(t, root, o, oroot) && t.Node? && node == Least(t).id
      modifies pool`freeLinks, pool`shape, pool`mem, pool.links, pool.lists
      ensures pool.Valid() && Least(t).procs != [] && p == Least(t).procs[0] && (empty <==> |Least(t).procs| == 1)
      ensures node.listOfProcs in old(pool.shape.chains) && node.listOfProcs in old(pool.shape.queues)
      ensures |old(pool.shape.chains)[node.listOfProcs]| > 0 && |old(pool.shape.queues)[node.listOfProcs]| > 0
      ensures pool.shape == RemoveShape(old(pool.shape), node.listOfProcs, 0)
      ensures pool.shape.queues == old(pool.shape.queues)[node.listOfProcs := Least(t).procs[1..]]
    {
      hide SchedOk;
      hide LinksOk;
      LeastCell(ns, pool.shape.queues, t, root, o, oroot);
      var head := pool.Dequeue(node.listOfProcs);
      p := head.value;
      assert Drop(Least(t).procs, 0) == Least(t).procs[1..];
      ListEnds(pool.mem, pool.shape, node.listOfProcs);
      empty := node.listOfProcs.first == null;
    }

    /** Map::put, on a map whose tree is t, beside another map o. */
    method Put(m: Map, p: Proc, acc: Proc -> int, ghost t: Tree, ghost o: Tree, ghost oroot: MapNode?)
      returns (ok: bool, ghost t': Tree)
      requires Holds(t, m.root, o, oroot)
      modifies m, this`freeNodes, this`ns, nodes, pool`freeLinks, pool`shape, pool`mem, pool.links, pool.lists
      ensures Holds(t', m.root, o, oroot) && ns.home == old(ns.home)
      ensures PutEffect(ns.home, acc(p), p, t, old(pool.shape), old(ns.freeN), ok, t', pool.shape, ns.freeN)
    {
      hide QueuePool.Valid;
      hide SchedOk;
      hide PutEffect;
      var key := acc(p);
      TreeFacts(ns, pool.shape.queues, t, m.root, o, oroot);
      if m.root == null {
        var node;
        node, t' := PutFirst(p, key, o, oroot);
        m.root := node;
        ok := node != null;
      } else {
        var e := FindEnd(m.root, key, t, pool.shape.queues);
        if e.key == key {
          ok, t' := PutAt(e, p, key, t, m.root, o, oroot);
        } else {
          ok, t' := PutBelow(e, p, key, t, m.root, o, oroot);
        }
      }
    }

    /** extractMin after the list of the leftmost node ran empty; q are the lists before that. */
    method ReleaseNode(root: MapNode, node: MapNode, ghost t: Tree, ghost o: Tree, ghost oroot: MapNode?, ghost q: Queues)
      returns (root': MapNode?)
      requires Cells() && SchedOk(ns, q, t, root, o, oroot) && t.Node? && |Least(t).procs| == 1
      requires node == Least(t).id && node.key == Least(t).key && pool.shape.queues == q[node.listOfProcs := []]
      modifies this`freeNodes, this`ns, nodes
      ensures Holds(TreeExtract(t), root', o, oroot)
      ensures ns.home == old(ns.home) && ns.freeN == [node] + old(ns.freeN)
    {
      hide QueuePool.Valid;
      hide SchedOk;
      hide Bypassed;
      ghost var ns0 := ns;
      LeastNeighbours(ns0, q, t, root, o, oroot);
      TreeFacts(ns0, q, t, root, o, oroot);
      assert ns0.mem[node] == NodeVal(node.key, node.next, node.parent, node.left, node.right);
      ghost var m;
      root', m := Unlink(root, node);
      ExtractLast(ns0, q, t, root, o, oroot, m);
      RecordNodes(NodeState(m, node, [node] + ns0.freeN, ns0.home), TreeExtract(t), root', o, oroot);
    }

    /** Map::extractMin on a tree that is not empty, given its leftmost node. */
    method ExtractAt(root: MapNode, node: MapNode, ghost t: Tree, ghost o: Tree, ghost oroot: MapNode?)
      returns (p: Proc, root': MapNode?, ghost t': Tree)
      requires Holds(t, root, o, oroot) && t.Node? && node == Least(t).id && node in nodes && node.key == Least(t).key
      modifies this`freeNodes, this`ns, nodes, pool`freeLinks, pool`shape, pool`mem, pool.links, pool.lists
      ensures Holds(t', root', o, oroot) && ns.home == old(ns.home)
      ensures ExtractEffect(ns.home, t, old(pool.shape), old(ns.freeN), Some(p), t', pool.shape, ns.freeN)
    {
      hide NodesAre;
      hide QueuePool.Valid;
      hide SchedOk;
      hide ExtractEffect;
      ghost var ns0, s0 := ns, pool.shape;
      var empty;
      p, empty := ExtractFrom(node, t, root, o, oroot);
      ExtractEffectIs(ns0, t, root, o, oroot, s0, if empty then [node] + ns0.freeN else ns0.freeN);
      t' := TreeExtract(t);
      root' := root;
      if empty {
        root' := ReleaseNode(root, node, t, o, oroot, s0.queues);
      } else {
        ExtractOneOfMany(ns0, s0.queues, t, root, o, oroot);
      }
    }

    /** Map::extractMin, on a map whose tree is t, beside another map o. */
    method ExtractMin(m: Map, ghost t: Tree, ghost o: Tree, ghost oroot: MapNode?) returns (p: Option<Proc>, ghost t': Tree)
      requires Holds(t, m.root, o, oroot)
      modifies m, this`freeNodes, this`ns, nodes, pool`freeLinks, pool`shape, pool`mem, pool.links, pool.lists
      ensures Holds(t', m.root, o, oroot) && ns.home == old(ns.home)
      ensures ExtractEffect(ns.home, t, old(pool.shape), old(ns.freeN), p, t', pool.shape, ns.freeN)
    {
      hide NodesAre;
      hide QueuePool.Valid;
      hide SchedOk;
      hide ExtractEffect;
      TreeFacts(ns, pool.shape.queues, t, m.root, o, oroot);
      if m.root == null {
        NothingToExtract(ns.home, pool.shape, ns.freeN);
        return None, t;
      }
      var node := GetMinNode(m.root, t, pool.shape.queues);
      var head, root';
      head, root', t' := ExtractAt(m.root, node, t, o, oroot);
      m.root := root';
      p := Some(head);
    }

    // ----- the three queues -----

    ghost predicate Valid()
      reads this, pool, pool.links, pool.lists, nodes, priorityQ
    {
      && Holds(tree, priorityQ.root, Leaf, null)
      && roundRobinQ in pool.lists && runningProcHolder in pool.lists && roundRobinQ != runningProcHolder
      && roundRobinQ !in ns.home && runningProcHolder !in ns.home
    }

    /** The entries of the priority queue, in the order in which extractMin takes them. */
    ghost function Waiting(): (es: seq<Entry>)
      reads this
    {
      Entries(InOrder(tree))
    }

    /** How many nodes and how many links are free. */
    ghost function NodesLeft(): nat
      reads this
    {
      |ns.freeN|
    }

    /** How many different keys wait in the priority queue. */
    ghost function KeysWaiting(): nat
      reads this
    {
      |InOrder(tree)|
    }

    ghost function LinksLeft(): nat
      reads this, pool
    {
      |pool.shape.freeL|
    }

    ghost function RoundRobin(): (ps: seq<Proc>)
      reads this, pool, pool.links, pool.lists, nodes, priorityQ
      requires Valid()
    {
      pool.shape.queues[roundRobinQ]
    }

    ghost function Running(): (ps: seq<Proc>)
      reads this, pool, pool.links, pool.lists, nodes, priorityQ
      requires Valid()
    {
      pool.shape.queues[runningProcHolder]
    }

    /** The queue is sorted, and every node is free or stands for one waiting key. */
    lemma WaitingFacts()
      requires Valid()
      ensures Sorted(Waiting()) && NodesLeft() + KeysWaiting() == |nodes|
    {
      EntriesSorted(InOrder(tree));
      NodesConserved(ns, pool.shape.queues, tree, priorityQ.root, Leaf, null);
      hide SchedOk;
    }

    /** If there are as many nodes as links, put never lacks a node: every key that waits takes a link. */
    lemma LinkMeansNode()
      requires Valid()
      ensures |nodes| >= |pool.links| && LinksLeft() > 0 ==> NodesLeft() > 0
    {
      if |nodes| >= |pool.links| && LinksLeft() > 0 {
        LinksAreKeys(pool.links, pool.mem.links);
        NodesListed();
        KeysTakeLinks(pool.mem, pool.shape, ns, tree, priorityQ.root);
      }
    }

    lemma ValidFacts()
      requires Valid()
      ensures Rising(InOrder(tree)) && Filled(InOrder(tree)) && (InOrder(tree) == [] <==> priorityQ.root == null)
      ensures InOrder(tree) != [] ==> InOrder(tree)[0].procs != [] && Waiting() != []
    {
    }

    /** enqueue on a list that is not part of a node. */
    method EnqueueOn(l: LinkedList, p: Proc, ghost t: Tree, ghost root: MapNode?, ghost o: Tree, ghost oroot: MapNode?)
      returns (ok: bool)
      requires Holds(t, root, o, oroot) && l in pool.lists && l !in ns.home
      modifies pool`freeLinks, pool`shape, pool`mem, pool.links, pool.lists
      ensures Holds(t, root, o, oroot)
      ensures ok <==> old(pool.shape.freeL) != []
      ensures l in old(pool.shape.queues) && l in old(pool.shape.chains)
      ensures pool.shape == if ok then EnqueueShape(old(pool.shape), l, p) else old(pool.shape)
    {
      hide NodesAre;
      hide SchedOk;
      hide LinksOk;
      hide QueuePool.Valid;
      ghost var q0 := pool.shape.queues;
      NodeListsAtHome(ns, q0, t, root, o, oroot);
      ok := pool.Enqueue(l, p);
      ForeignQueue(ns, q0, pool.shape.queues, t, root, o, oroot);
    }

    /** dequeue on a list that is not part of a node. */
    method DequeueFrom(l: LinkedList, ghost t: Tree, ghost root: MapNode?, ghost o: Tree, ghost oroot: MapNode?)
      returns (p: Option<Proc>)
      requires Holds(t, root, o, oroot) && l in pool.lists && l !in ns.home && l in pool.shape.queues
      modifies pool`freeLinks, pool`shape, pool`mem, pool.links, pool.lists
      ensures Holds(t, root, o, oroot)
      ensures p == if old(pool.shape.queues)[l] == [] then None else Some(old(pool.shape.queues)[l][0])
      ensures pool.shape.queues == if p == None then old(pool.shape.queues)
                                   else old(pool.shape.queues)[l := Drop(old(pool.shape.queues)[l], 0)]
    {
      hide SchedOk;
      hide QueuePool.Valid;
      hide Drop;
      hide NodesAre;
      ghost var q0 := pool.shape.queues;
      p := pool.Dequeue(l);
      OtherQueue(ns, q0, pool.shape.queues, l, t, root, o, oroot);
    }

    /** remove on a list that is not part of a node. */
    method RemoveFrom(l: LinkedList, p: Proc, ghost t: Tree, ghost root: MapNode?, ghost o: Tree, ghost oroot: MapNode?)
      returns (found: bool, ghost k: nat)
      requires Holds(t, root, o, oroot) && l in pool.lists && l !in ns.home && l in pool.shape.queues
      modifies pool`freeLinks, pool`shape, pool`mem, pool.links, pool.lists
      ensures Holds(t, root, o, oroot)
      ensures found <==> p in old(pool.shape.queues)[l]
      ensures found ==> k < |old(pool.shape.queues)[l]| && old(pool.shape.queues)[l][k] == p && p !in old(pool.shape.queues)[l][..k]
      ensures pool.shape.queues == if found then old(pool.shape.queues)[l := Drop(old(pool.shape.queues)[l], k)]
                                   else old(pool.shape.queues)
    {
      hide SchedOk;
      hide QueuePool.Valid;
      hide Drop;
      hide NodesAre;
      ghost var q0 := pool.shape.queues;
      found, k := pool.Remove(l, p);
      OtherQueue(ns, q0, pool.shape.queues, l, t, root, o, oroot);
    }

    /** The list is one of the two that stand on their own. */
    ghost predicate Standalone(l: LinkedList) {
      l == roundRobinQ || l == runningProcHolder
    }

    /** enqueue on the round robin queue or on the holder of running processes. */
    method EnqueueProc(l: LinkedList, p: Proc) returns (ok: bool)
      requires Valid() && Standalone(l)
      modifies pool`freeLinks, pool`shape, pool`mem, pool.links, pool.lists
      ensures Valid() && (ok <==> old(LinksLeft()) > 0)
      ensures RoundRobin() == if ok && l == roundRobinQ then old(RoundRobin()) + [p] else old(RoundRobin())
      ensures Running() == if ok && l != roundRobinQ then old(Running()) + [p] else old(Running())
    {
      hide Scheduler.Holds;
      hide Scheduler.Valid;
      ValidParts();
      ok := EnqueueOn(l, p, tree, priorityQ.root, Leaf, null);
      PartsValid();
    }

    /** dequeue of the round robin queue. */
    method DequeueProc() returns (p: Option<Proc>)
      requires Valid()
      modifies pool`freeLinks, pool`shape, pool`mem, pool.links, pool.lists
      ensures Valid() && Running() == old(Running())
      ensures p == if old(RoundRobin()) == [] then None else Some(old(RoundRobin())[0])
      ensures RoundRobin() == if p == None then [] else old(RoundRobin())[1..]
    {
      hide Scheduler.Holds;
      hide Scheduler.Valid;
      ValidParts();
      ghost var ps := RoundRobin();
      p := DequeueFrom(roundRobinQ, tree, priorityQ.root, Leaf, null);
      assert ps != [] ==> Drop(ps, 0) == ps[1..];
      PartsValid();
    }

    /** remove from the holder of running processes: the first occurrence leaves. */
    method RemoveProc(p: Proc) returns (found: bool)
      requires Valid()
      modifies pool`freeLinks, pool`shape, pool`mem, pool.links, pool.lists
      ensures Valid() && RoundRobin() == old(RoundRobin())
      ensures found <==> p in old(Running())
      ensures found ==> exists k | 0 <= k < |old(Running())| ::
                          old(Running())[k] == p && p !in old(Running())[..k] && Running() == Drop(old(Running()), k)
      ensures !found ==> Running() == old(Running())
    {
      hide Scheduler.Holds;
      hide Scheduler.Valid;
      ValidParts();
      ghost var k;
      found, k := RemoveFrom(runningProcHolder, p, tree, priorityQ.root, Leaf, null);
      PartsValid();
    }

    /** extractMin of the priority queue. */
    method ExtractMinProc() returns (p: Option<Proc>)
      requires Valid()
      modifies priorityQ, this`tree, this`freeNodes, this`ns, nodes, pool`freeLinks, pool`shape, pool`mem, pool.links, pool.lists
      ensures Valid() && RoundRobin() == old(RoundRobin()) && Running() == old(Running())
      ensures p == if old(Waiting()) == [] then None else Some(old(Waiting())[0].p)
      ensures Waiting() == if p == None then [] else old(Waiting())[1..]
      ensures p != None ==> LinksLeft() > 0
      ensures NodesLeft() + KeysWaiting() == old(NodesLeft() + KeysWaiting())
    {
      hide Scheduler.Holds;
      hide Scheduler.Valid;
      hide ExtractEffect;
      ghost var s0, t0, home := pool.shape, tree, ns.home;
      ValidParts();
      ValidFacts();
      ghost var t';
      p, t' := ExtractMin(priorityQ, tree, Leaf, null);
      RecordTree(t', priorityQ.root);
      ExtractedMaybe(home, t0, s0, old(ns.freeN), p, t', pool.shape, ns.freeN);
      PartsValid();
    }

    /** One turn of Map::transfer's loop. */
    method TransferOne()
      requires Valid() && Waiting() != []
      modifies priorityQ, this`tree, this`freeNodes, this`ns, nodes, pool`freeLinks, pool`shape, pool`mem, pool.links, pool.lists
      ensures Valid() && Waiting() == old(Waiting())[1..]
      ensures RoundRobin() == old(RoundRobin()) + [old(Waiting())[0].p] && Running() == old(Running())
      ensures NodesLeft() + KeysWaiting() == old(NodesLeft() + KeysWaiting())
    {
      hide Scheduler.Holds;
      hide QueuePool.Valid;
      hide InOrder;
      hide Entries;
      hide Scheduler.Valid;
      hide Scheduler.NodesLeft;
      hide Scheduler.LinksLeft;
      hide Scheduler.RoundRobin;
      hide Scheduler.Running;
      var p := ExtractMinProc();
      var ok := EnqueueProc(roundRobinQ, p.value);  // its result is ignored; it is true
    }

    ghost method RecordTree(t: Tree, root: MapNode?)
      requires Holds(t, root, Leaf, null)
      modifies this`tree
      ensures Holds(t, root, Leaf, null) && tree == t
    {
      hide QueuePool.Valid;
      hide SchedOk;
      tree := t;
    }

    lemma {:induction false} HoldsFacts(t: Tree, root: MapNode?, o: Tree, oroot: MapNode?)
      requires Holds(t, root, o, oroot)
      ensures Rising(InOrder(t)) && Filled(InOrder(t)) && (InOrder(t) == [] <==> root == null)
      ensures pool.lists == pool.shape.queues.Keys == pool.shape.chains.Keys
    {
    }

    lemma ValidParts()
      requires Valid()
      ensures Holds(tree, priorityQ.root, Leaf, null) && roundRobinQ in pool.lists && runningProcHolder in pool.lists
      ensures roundRobinQ != runningProcHolder && roundRobinQ !in ns.home && runningProcHolder !in ns.home
      ensures pool.Valid() && roundRobinQ in pool.shape.queues && runningProcHolder in pool.shape.queues
    {
    }

    lemma PartsValid()
      requires Holds(tree, priorityQ.root, Leaf, null) && roundRobinQ in pool.lists && runningProcHolder in pool.lists
      requires roundRobinQ != runningProcHolder && roundRobinQ !in ns.home && runningProcHolder !in ns.home
      ensures Valid() && roundRobinQ in pool.shape.queues && runningProcHolder in pool.shape.queues
    {
    }

    /** Map::transfer: switch to the round robin queue. */
    method TransferToRoundRobin() returns (ok: bool)
      requires Valid()
      modifies priorityQ, this`tree, this`freeNodes, this`ns, nodes, pool`freeLinks, pool`shape, pool`mem, pool.links, pool.lists
      ensures Valid() && (ok <==> old(RoundRobin()) == [])
      ensures ok ==> Waiting() == [] && RoundRobin() == Procs(old(Waiting()))
      ensures !ok ==> Waiting() == old(Waiting()) && RoundRobin() == old(RoundRobin())
      ensures Running() == old(Running())
      ensures ok ==> NodesLeft() == old(NodesLeft() + KeysWaiting())
    {
      hide Scheduler.Valid;
      hide Scheduler.NodesLeft;
      hide Scheduler.KeysWaiting;
      hide Scheduler.RoundRobin;
      hide Scheduler.Running;
      hide Scheduler.Waiting;
      var empty := RoundRobinEmpty();
      if !empty {
        return false;
      }
      Drain();
      ok := true;
    }

    /** The loop of Map::transfer. */
    method Drain()
      requires Valid()
      modifies priorityQ, this`tree, this`freeNodes, this`ns, nodes, pool`freeLinks, pool`shape, pool`mem, pool.links, pool.lists
      ensures Valid() && Waiting() == [] && RoundRobin() == old(RoundRobin()) + Procs(old(Waiting())) && Running() == old(Running())
      ensures NodesLeft() == old(NodesLeft() + KeysWaiting())
    {
      hide Scheduler.Valid;
      hide Scheduler.NodesLeft;
      hide Scheduler.KeysWaiting;
      hide Scheduler.RoundRobin;
      hide Scheduler.Running;
      hide Scheduler.Waiting;
      while priorityQ.root != null
        invariant Valid() && RoundRobin() + Procs(Waiting()) == old(RoundRobin()) + Procs(old(Waiting())) && Running() == old(Running())
        invariant NodesLeft() + KeysWaiting() == old(NodesLeft() + KeysWaiting())
        decreases |Waiting()|
      {
        RootFacts();
        MoveFirst(RoundRobin(), Waiting());
        TransferOne();
      }
      RootFacts();
    }

    lemma RootFacts()
      requires Valid()
      ensures (priorityQ.root == null <==> Waiting() == []) && (priorityQ.root == null ==> KeysWaiting() == 0)
    {
      ValidFacts();
    }

    method RoundRobinEmpty() returns (empty: bool)
      requires Valid()
      ensures empty <==> RoundRobin() == []
    {
      empty := IsEmptyList(roundRobinQ);
    }

    method IsEmptyList(l: LinkedList) returns (empty: bool)
      requires pool.Valid() && l in pool.lists
      ensures empty <==> pool.shape.queues[l] == []
    {
      hide LinksOk;
      ListEnds(pool.mem, pool.shape, l);
      empty := l.first == null;
    }

    lemma HoldsSwapped(t: Tree, root: MapNode?, o: Tree, oroot: MapNode?)
      requires Holds(t, root, o, oroot)
      ensures Holds(o, oroot, t, root)
    {
      hide QueuePool.Valid;
      Swap(ns, pool.shape.queues, t, root, o, oroot);
    }

    /** One turn of extractProc's loop: the first process moves to the temporary map unless it is p. */
    method RefileOne(temp: Map, p: Proc, acc: Proc -> int, ghost t: Tree, ghost o: Tree,
                     ghost es: seq<Entry>, ghost n: nat, ghost found: bool)
      returns (same: bool, ghost t': Tree, ghost o': Tree)
      requires Holds(t, priorityQ.root, o, temp.root) && temp != priorityQ && InOrder(t) != []
      modifies priorityQ, temp, this`freeNodes, this`ns, nodes, pool`freeLinks, pool`shape, pool`mem, pool.links, pool.lists
      ensures Holds(t', priorityQ.root, o', temp.root) && ns.home == old(ns.home)
      ensures |Entries(InOrder(t'))| < |Entries(InOrder(t))|
      ensures Occurs(Entries(InOrder(t)), p) <==> same || Occurs(Entries(InOrder(t')), p)
      ensures SameOutside(ns.home, old(pool.shape.queues), pool.shape.queues)
      ensures Refiling(es, p, acc, n, InOrder(t), InOrder(o), |old(ns.freeN)|, found) ==>
                Refiling(es, p, acc, n, InOrder(t'), InOrder(o'), |ns.freeN|, found || same)
    {
      hide Scheduler.Holds;
      hide ExtractEffect;
      hide PutEffect;
      hide Refiling;
      ghost var s0, f0 := pool.shape, ns.freeN;
      HoldsFacts(t, priorityQ.root, o, temp.root);
      var head;
      head, t' := ExtractMin(priorityQ, t, o, temp.root);
      ghost var s1, f1 := pool.shape, ns.freeN;
      ExtractedFirst(ns.home, t, s0, f0, head, t', s1, f1);
      o' := o;
      same := head.value == p;
      OccursCons(Entries(InOrder(t)), p);
      if same {
        if Refiling(es, p, acc, n, InOrder(t), InOrder(o), |f0|, found) {
          RefiledSame(ns.home, es, p, acc, n, found, t, o, s0, f0, t', s1, f1);
        }
      } else {
        HoldsSwapped(t', priorityQ.root, o, temp.root);
        var ok;
        ok, o' := Put(temp, head.value, acc, o, t', priorityQ.root);
        HoldsSwapped(o', temp.root, t', priorityQ.root);
        if Refiling(es, p, acc, n, InOrder(t), InOrder(o), |f0|, found) {
          RefiledOther(ns.home, es, p, acc, n, found, t, o, s0, f0, head.value, t', s1, f1, ok, o', pool.shape, ns.freeN);
        }
        PutOutside(ns.home, acc(head.value), head.value, o, s1, f1, ok, o', pool.shape, ns.freeN);
      }
    }

    /** put of the priority queue. */
    method PutProc(p: Proc, acc: Proc -> int) returns (ok: bool)
      requires Valid()
      modifies priorityQ, this`tree, this`freeNodes, this`ns, nodes, pool`freeLinks, pool`shape, pool`mem, pool.links, pool.lists
      ensures Valid() && RoundRobin() == old(RoundRobin()) && Running() == old(Running())
      ensures ok <==> old(LinksLeft()) > 0 && (HasKey(InOrder(old(tree)), acc(p)) || old(NodesLeft()) > 0)
      ensures old(|nodes| >= |pool.links|) ==> (ok <==> old(LinksLeft()) > 0)
      ensures Waiting() == if ok then Insert(old(Waiting()), Entry(acc(p), p)) else old(Waiting())
      ensures Sorted(old(Waiting())) && Sorted(Waiting()) && SplitAt(old(Waiting()), Place(old(Waiting()), acc(p)), acc(p))
      ensures InOrder(tree) == if ok then SchedSpec.Put(InOrder(old(tree)), acc(p), p) else InOrder(old(tree))
      ensures NodesLeft() == old(NodesLeft()) - (if ok && !HasKey(InOrder(old(tree)), acc(p)) then 1 else 0)
      ensures LinksLeft() == old(LinksLeft()) - (if ok then 1 else 0)
    {
      hide Scheduler.Holds;
      hide Scheduler.Valid;
      hide PutEffect;
      hide InOrder;
      hide Entries;
      hide Insert;
      hide SchedSpec.Put;
      hide Sorted;
      ghost var s0, t0, home := pool.shape, tree, ns.home;
      ValidParts();
      ValidFacts();
      WaitingFacts();
      LinkMeansNode();
      PlaceSplits(Waiting(), acc(p));
      ghost var t';
      ok, t' := Put(priorityQ, p, acc, tree, Leaf, null);
      RecordTree(t', priorityQ.root);
      PutOnEntries(home, acc(p), p, t0, s0, old(ns.freeN), ok, t', pool.shape, ns.freeN);
      PartsValid();
      WaitingFacts();
    }

    /** The loop of extractProc: drains the priority queue into temp. */
    method Refile(temp: Map, p: Proc, acc: Proc -> int) returns (found: bool, ghost o: Tree)
      requires Valid() && temp != priorityQ && temp.root == null
      modifies priorityQ, temp, this`freeNodes, this`ns, nodes, pool`freeLinks, pool`shape, pool`mem, pool.links, pool.lists
      ensures Holds(o, temp.root, Leaf, null) && ns.home == old(ns.home)
      ensures SameOutside(ns.home, old(pool.shape.queues), pool.shape.queues)
      ensures found <==> Occurs(old(Waiting()), p)
      ensures old(NodesLeft()) > 0 && Coherent(old(Waiting()), acc) ==> Entries(InOrder(o)) == Without(old(Waiting()), p)
    {
      hide Scheduler.Holds;
      hide Refiling;
      hide Coherent;
      hide SameOutside;
      hide InOrder;
      hide Occurs;
      hide Entries;
      ghost var es, n, free := Waiting(), |InOrder(tree)|, |ns.freeN|;
      ghost var t := tree;
      ValidFacts();
      if free > 0 && Coherent(es, acc) {
        RefilingStart(InOrder(tree), p, acc, free);
      }
      found, o := false, Leaf;
      assert InOrder(Leaf) == [] && SameOutside(ns.home, pool.shape.queues, pool.shape.queues) by {
        StartEmpty(ns.home, pool.shape.queues);
      }
      while priorityQ.root != null
        invariant Holds(t, priorityQ.root, o, temp.root) && ns.home == old(ns.home)
        invariant SameOutside(ns.home, old(pool.shape.queues), pool.shape.queues)
        invariant Occurs(es, p) <==> found || Occurs(Entries(InOrder(t)), p)
        invariant free > 0 && Coherent(es, acc) ==> Refiling(es, p, acc, n, InOrder(t), InOrder(o), |ns.freeN|, found)
        decreases |Entries(InOrder(t))|
      {
        HoldsFacts(t, priorityQ.root, o, temp.root);
        ghost var q := pool.shape.queues;
        var same;
        same, t, o := RefileOne(temp, p, acc, t, o, es, n, found);
        SameOutsideChain(ns.home, old(pool.shape.queues), q, pool.shape.queues);
        if same {
          found := true;
        }
      }
      HoldsFacts(t, priorityQ.root, o, temp.root);
      NoneOccurs(t, p);
      HoldsSwapped(t, null, o, temp.root);
      HoldsEmpty(o, temp.root, t);
      if free > 0 && Coherent(es, acc) {
        RefilingEnd(es, p, acc, n, InOrder(o), |ns.freeN|, found);
      }
    }

    lemma HoldsEmpty(t: Tree, root: MapNode?, o: Tree)
      requires Holds(t, root, o, null)
      ensures o == Leaf && Holds(t, root, Leaf, null)
    {
    }

    /** Map::extractProc */
    method ExtractProc(p: Proc, acc: Proc -> int) returns (found: bool)
      requires Valid()
      modifies priorityQ, this`tree, this`freeNodes, this`ns, nodes, pool`freeLinks, pool`shape, pool`mem, pool.links, pool.lists
      ensures Valid() && RoundRobin() == old(RoundRobin()) && Running() == old(Running())
      ensures old(NodesLeft()) == 0 ==> !found && Waiting() == old(Waiting()) && NodesLeft() == 0
      ensures old(NodesLeft()) > 0 ==> (found <==> Occurs(old(Waiting()), p))
      ensures old(NodesLeft()) > 0 && Coherent(old(Waiting()), acc) ==> Waiting() == Without(old(Waiting()), p)
      ensures old(NodesLeft()) > 0 && Coherent(old(Waiting()), acc) ==> forall e :: e in Waiting() <==> e in old(Waiting()) && e.p != p
      ensures old(NodesLeft() == 0 <==> KeysWaiting() == |nodes|)
    {
      hide Scheduler.Holds;
      hide Scheduler.Valid;
      hide Coherent;
      WithoutIs(Waiting(), p);
      WaitingFacts();
      hide Without;
      hide Scheduler.NodesLeft;
      hide Entries;
      hide InOrder;
      hide Occurs;
      hide Sorted;
      ValidParts();
      NoFreeNode();
      if freeNodes == null {
        return false;
      }
      var temp := new Map();
      ghost var o;
      found, o := Refile(temp, p, acc);
      SetRoot(temp.root, o);
    }

    /** put of process p with accumulator p, above all keys so far. */
    method FileKey(p: nat)
      requires Valid() && KeysBelow(InOrder(tree), p) && NodesLeft() > 0 && LinksLeft() > 0 && (p > 0 ==> Occurs(Waiting(), 0))
      modifies priorityQ, this`tree, this`freeNodes, this`ns, nodes, pool`freeLinks, pool`shape, pool`mem, pool.links, pool.lists
      ensures Valid() && KeysBelow(InOrder(tree), p + 1) && Occurs(Waiting(), 0)
      ensures NodesLeft() == old(NodesLeft()) - 1 && LinksLeft() == old(LinksLeft()) - 1
    {
      hide Scheduler.Valid;
      PutKeysBelow(InOrder(tree), p, p);
      InsertOccurs(Waiting(), Entry(p, p), 0);
      hide Insert;
      hide Occurs;
      hide InOrder;
      var ok := PutProc(p, q => q);
    }

    /** put of the processes from p to NPROCMAP, each with its own number as accumulator. */
    method FileKeys(p: nat)
      requires Valid() && p <= NPROCMAP && NodesLeft() == NPROCMAP - p && LinksLeft() >= NPROCMAP - p
      requires KeysBelow(InOrder(tree), p) && (p > 0 ==> Occurs(Waiting(), 0))
      modifies priorityQ, this`tree, this`freeNodes, this`ns, nodes, pool`freeLinks, pool`shape, pool`mem, pool.links, pool.lists
      ensures Valid() && NodesLeft() == 0 && Occurs(Waiting(), 0)
      decreases NPROCMAP - p
    {
      hide Scheduler.NodesLeft;
      hide Scheduler.LinksLeft;
      hide Scheduler.Valid;
      hide InOrder;
      hide Occurs;
      hide KeysBelow;
      if p < NPROCMAP {
        FileKey(p);
        FileKeys(p + 1);
      }
    }

    /** With NPROCMAP processes in the queue under different keys, extractProc does not find process 0. */
    method FullQueue() returns (found: bool)
      requires Valid() && tree == Leaf && NodesLeft() == NPROCMAP && LinksLeft() == NPROCLIST
      modifies priorityQ, this`tree, this`freeNodes, this`ns, nodes, pool`freeLinks, pool`shape, pool`mem, pool.links, pool.lists
      ensures Valid() && NodesLeft() == 0 && Occurs(Waiting(), 0) && !found
    {
      EmptyInOrder();
      hide Scheduler.NodesLeft;
      hide Scheduler.LinksLeft;
      hide Scheduler.Valid;
      hide Scheduler.RoundRobin;
      hide Scheduler.Running;
      hide InOrder;
      hide Occurs;
      hide Coherent;
      hide Without;
      FileKeys(0);
      found := ExtractProc(0, p => p);
    }

    lemma NoFreeNode()
      requires Valid()
      ensures freeNodes == null <==> NodesLeft() == 0
    {
    }

    method AllocAndMove(l: LinkedList) returns (node: MapNode)
      requires NodesAre(nodes, ns.mem) && freeNodes != null && freeNodes in ns.mem
      requires freeNodes.listOfProcs in pool.lists && freeNodes.listOfProcs != l
      requires pool.Valid() && l in pool.lists && pool.shape.queues[freeNodes.listOfProcs] == []
      modifies this`freeNodes, nodes`next, nodes`key, pool`shape, pool`mem, pool.lists`first, pool.lists`last
      ensures pool.Valid() && node == old(freeNodes) && freeNodes == ns.mem[node].next
      ensures l in old(pool.shape.queues)
      ensures pool.shape.queues == old(pool.shape.queues)[node.listOfProcs := old(pool.shape.queues)[l]][l := []]
      ensures NodesAre(nodes, ns.mem[node := ns.mem[node].(next := null, key := 0)])
    {
      hide NodesAre;
      hide QueuePool.Valid;
      node := AllocNode(0);
      pool.MoveAll(l, node.listOfProcs);
    }

    /** The part of LinkedList::transfer that moves the links into a node with key 0. */
    method FileAll(l: LinkedList, ghost ps: seq<Proc>) returns (node: MapNode)
      requires Holds(Leaf, null, Leaf, null) && ns.freeN != [] && ps != []
      requires l in pool.lists && l !in ns.home && l in pool.shape.queues && pool.shape.queues[l] == ps
      modifies this`freeNodes, this`ns, nodes`next, nodes`key, pool`shape, pool`mem, pool.lists
      ensures Holds(Node(node, 0, ps, Leaf, Leaf), node, Leaf, null) && ns.home == old(ns.home)
      ensures Emptied(ns.home, old(pool.shape.queues), pool.shape.queues, l)
    {
      hide NodesAre;
      hide QueuePool.Valid;
      hide SchedOk;
      ghost var ns0, q0 := ns, pool.shape.queues;
      FreeNode(ns0, q0, Leaf, null, Leaf, null);
      FileList(ns0, q0, ps, l);
      NodeListsAtHome(ns0, q0, Leaf, null, Leaf, null);
      hide Emptied;
      node := AllocAndMove(l);
      FilingEmpties(ns0.home, q0, node.listOfProcs, ps, l);
      RecordNodes(NodeState(ns0.mem[node := NodeVal(0, null, null, null, null)], ns0.mem[node].next, ns0.freeN[1..], ns0.home),
                  Node(node, 0, ps, Leaf, Leaf), node, Leaf, null);
    }

    /** LinkedList::transfer: switch to the priority queue. */
    method TransferToPriorityQueue() returns (ok: bool)
      requires Valid()
      modifies priorityQ, this`tree, this`freeNodes, this`ns, nodes, pool`shape, pool`mem, pool.lists
      ensures Valid() && Running() == old(Running())
      ensures ok <==> old(Waiting()) == [] && (old(RoundRobin()) == [] || old(ns.freeN) != [])
      ensures ok ==> Waiting() == Tagged(0, old(RoundRobin())) && RoundRobin() == []
      ensures !ok ==> Waiting() == old(Waiting()) && RoundRobin() == old(RoundRobin())
    {
      hide Scheduler.Holds;
      hide Scheduler.Valid;
      ValidParts();
      ValidFacts();
      NoFreeNode();
      if priorityQ.root != null {
        return false;
      }
      var empty := IsEmptyList(roundRobinQ);
      if !empty {
        if freeNodes == null {
          return false;
        }
        FileRoundRobin();
      }
      ok := true;
    }

    method FileRoundRobin()
      requires Valid() && priorityQ.root == null && RoundRobin() != [] && ns.freeN != []
      modifies priorityQ, this`tree, this`freeNodes, this`ns, nodes, pool`shape, pool`mem, pool.lists
      ensures Valid() && Waiting() == Tagged(0, old(RoundRobin())) && RoundRobin() == [] && Running() == old(Running())
    {
      hide Scheduler.Holds;
      hide Scheduler.Valid;
      hide Tagged;
      hide InOrder;
      ghost var ps := RoundRobin();
      ValidParts();
      EmptyTree();
      var node := FileAll(roundRobinQ, ps);
      OneBucket(node, ps);
      SetRoot(node, Node(node, 0, ps, Leaf, Leaf));
    }

    method SetRoot(root: MapNode?, ghost t: Tree)
      requires Holds(t, root, Leaf, null) && roundRobinQ in pool.lists && runningProcHolder in pool.lists
      requires roundRobinQ != runningProcHolder && roundRobinQ !in ns.home && runningProcHolder !in ns.home
      modifies priorityQ, this`tree
      ensures Valid() && tree == t
    {
      hide Scheduler.Holds;
      hide Scheduler.Valid;
      RecordTree(t, root);
      priorityQ.root := root;
      PartsValid();
    }

    lemma EmptyTree()
      requires Valid() && (priorityQ.root == null || tree == Leaf)
      ensures tree == Leaf && priorityQ.root == null && Holds(Leaf, null, Leaf, null)
    {
    }

    /** List to map to list: the round robin queue is as before. */
    method ThereAndBack() returns (ok: bool)
      requires Valid() && Waiting() == [] && (RoundRobin() == [] || ns.freeN != [])
      modifies priorityQ, this`tree, this`freeNodes, this`ns, nodes, pool`freeLinks, pool`shape, pool`mem, pool.links, pool.lists
      ensures ok && Valid() && Waiting() == [] && RoundRobin() == old(RoundRobin()) && Running() == old(Running())
    {
      hide Scheduler.Valid;
      hide Entries;
      hide Tagged;
      ghost var ps := RoundRobin();
      ok := TransferToPriorityQueue();
      ListToMapToList(ps);
      ok := TransferToRoundRobin();
    }

    /** Map to list to map: later extractions meet the processes in the same order, now all with key 0. */
    method BackAndThere() returns (ok: bool)
      requires Valid() && RoundRobin() == []
      modifies priorityQ, this`tree, this`freeNodes, this`ns, nodes, pool`freeLinks, pool`shape, pool`mem, pool.links, pool.lists
      ensures ok && Valid() && RoundRobin() == [] && Procs(Waiting()) == Procs(old(Waiting())) && Running() == old(Running())
      ensures Waiting() == Tagged(0, Procs(old(Waiting())))
    {
      hide Scheduler.Valid;
      hide Entries;
      hide Tagged;
      NothingWaiting();
      ListToMapToList(Procs(Waiting()));
      ok := TransferToRoundRobin();
      ok := TransferToPriorityQueue();
    }

    /** Without buckets there are no entries. */
    lemma NothingWaiting()
      ensures InOrder(tree) == [] ==> Waiting() == [] && Procs(Waiting()) == []
    {
    }

    // ----- building the pools -----

    /** One turn of initSchedDS's loop over the links. */
    method AddLink()
      requires Valid()
      modifies pool
      ensures Valid() && RoundRobin() == old(RoundRobin()) && Running() == old(Running())
      ensures LinksLeft() == old(LinksLeft()) + 1 && |pool.links| == |old(pool.links)| + 1
      ensures fresh(pool.links - old(pool.links)) && pool.lists == old(pool.lists)
    {
      hide SchedOk;
      hide LinksOk;
      pool.AddLink();
    }

    /** The two loops of initSchedDS. */
    method FillPools()
      requires Valid() && tree == Leaf && LinksLeft() == 0 && NodesLeft() == 0
      modifies pool, this`freeNodes, this`nodes, this`ns
      ensures Valid() && RoundRobin() == old(RoundRobin()) && Running() == old(Running())
      ensures LinksLeft() == NPROCLIST && NodesLeft() == NPROCMAP && |pool.links| == |old(pool.links)| + NPROCLIST
      ensures fresh(nodes - old(nodes)) && fresh(pool.links - old(pool.links)) && fresh(pool.lists - old(pool.lists))
    {
      hide Scheduler.Valid;
      hide Scheduler.RoundRobin;
      hide Scheduler.Running;
      hide Scheduler.NodesLeft;
      hide Scheduler.LinksLeft;
      hide QueuePool.Valid;
      AddLinks();
      AddNodes();
    }

    lemma EmptyPoolSize()
      requires Valid() && tree == Leaf
      ensures |nodes| == NodesLeft()
    {
      WaitingFacts();
    }

    method AddLinks()
      requires Valid() && LinksLeft() == 0
      modifies pool
      ensures Valid() && RoundRobin() == old(RoundRobin()) && Running() == old(Running())
      ensures LinksLeft() == NPROCLIST && |pool.links| == |old(pool.links)| + NPROCLIST
      ensures fresh(pool.links - old(pool.links)) && pool.lists == old(pool.lists)
    {
      hide Scheduler.RoundRobin;
      hide Scheduler.Running;
      hide Scheduler.NodesLeft;
      hide Scheduler.LinksLeft;
      hide Scheduler.Valid;
      hide QueuePool.Valid;
      for i := 0 to NPROCLIST
        invariant Valid() && RoundRobin() == old(RoundRobin()) && Running() == old(Running())
        invariant LinksLeft() == i && |pool.links| == |old(pool.links)| + i && fresh(pool.links - old(pool.links)) && pool.lists == old(pool.lists)
      {
        AddLink();
      }
    }

    method AddNodes()
      requires Valid() && tree == Leaf && NodesLeft() == 0
      modifies this`freeNodes, this`nodes, this`ns, pool`lists, pool`mem, pool`shape
      ensures Valid() && RoundRobin() == old(RoundRobin()) && Running() == old(Running())
      ensures NodesLeft() == NPROCMAP && LinksLeft() == old(LinksLeft())
      ensures fresh(nodes - old(nodes)) && fresh(pool.lists - old(pool.lists))
    {
      hide Scheduler.RoundRobin;
      hide Scheduler.Running;
      hide Scheduler.NodesLeft;
      hide Scheduler.LinksLeft;
      hide Scheduler.Valid;
      hide QueuePool.Valid;
      for i := 0 to NPROCMAP
        invariant Valid() && RoundRobin() == old(RoundRobin()) && Running() == old(Running())
        invariant NodesLeft() == i && LinksLeft() == old(LinksLeft())
        invariant fresh(nodes - old(nodes)) && fresh(pool.lists - old(pool.lists))
      {
        AddNode();
      }
    }

    /** One turn of initSchedDS's loop over the nodes. */
    method AddNode()
      requires Valid() && tree == Leaf
      modifies this`freeNodes, this`nodes, this`ns, pool`lists, pool`mem, pool`shape
      ensures Valid() && RoundRobin() == old(RoundRobin()) && Running() == old(Running())
      ensures NodesLeft() == old(NodesLeft()) + 1 && LinksLeft() == old(LinksLeft())
      ensures fresh(nodes - old(nodes)) && fresh(pool.lists - old(pool.lists))
    {
      hide QueuePool.Valid;
      hide Scheduler.Holds;
      hide Scheduler.Valid;
      ValidParts();
      EmptyTree();
      var node := new MapNode();
      AdmitNode(node);
      PartsValid();
    }

    lemma NodesListed()
      requires NodesAre(nodes, ns.mem)
      ensures nodes == ns.mem.Keys
    {
    }

    method PushNode(node: MapNode)
      requires NodesAre(nodes, ns.mem) && node !in nodes && node.parent == null && node.left == null && node.right == null
      modifies this`freeNodes, this`nodes, node`next
      ensures NodesAre(nodes, ns.mem[node := NodeVal(node.key, old(freeNodes), null, null, null)])
      ensures freeNodes == node && nodes == old(nodes) + {node}
    {
      node.next := freeNodes;
      freeNodes := node;
      nodes := nodes + {node};
    }

    method AdmitNode(node: MapNode)
      requires Holds(Leaf, null, Leaf, null) && node !in nodes
      requires node.listOfProcs !in pool.lists && node.listOfProcs !in ns.home && node.listOfProcs.first == null && node.listOfProcs.last == null
      requires node.parent == null && node.left == null && node.right == null
      modifies this`freeNodes, this`nodes, this`ns, pool`lists, pool`mem, pool`shape, node`next
      ensures Holds(Leaf, null, Leaf, null)
      ensures nodes == old(nodes) + {node} && pool.lists == old(pool.lists) + {node.listOfProcs}
      ensures ns.freeN == [node] + old(ns.freeN) && ns.home == old(ns.home)[node.listOfProcs := node]
      ensures pool.shape.freeL == old(pool.shape.freeL)
      ensures forall l | l in old(pool.shape.queues) :: l in pool.shape.queues && pool.shape.queues[l] == old(pool.shape.queues)[l]
    {
      hide QueuePool.Valid;
      hide SchedOk;
      hide NodesAre;
      ghost var ns0, q0 := ns, pool.shape.queues;
      assert node !in ns0.mem by {
        NodesListed();
      }
      SchedNodes.AddNode(ns0, q0, node, node.key);
      pool.AddList(node.listOfProcs);
      PushNode(node);
      RecordNodes(NodeState(ns0.mem[node := NodeVal(node.key, ns0.free, null, null, null)], node, [node] + ns0.freeN,
                            ns0.home[node.listOfProcs := node]), Leaf, null, Leaf, null);
    }
  }

  lemma LinksAreKeys(links: set<Link>, m: LinkMem)
    requires LinksAre(links, m)
    ensures links == m.Keys
  {
  }

  /** A node of the tree has a list that is not empty. */
  lemma {:induction false} NodeFilled(m: NodeMem, q: Queues, t: Tree, root: MapNode?, parent: MapNode?, n: MapNode)
    requires TreeAt(m, q, t, root, parent) && Filled(InOrder(t)) && n in Ids(t)
    ensures n.listOfProcs in q && q[n.listOfProcs] != []
  {
    var bs, l, r := InOrder(t), InOrder(t.left), InOrder(t.right);
    assert forall i | 0 <= i < |l| :: bs[i] == l[i];
    assert bs[|l|] == Bucket(t.key, t.procs);
    assert forall i | 0 <= i < |r| :: bs[|l| + 1 + i] == r[i];
    if n in Ids(t.left) {
      NodeFilled(m, q, t.left, m[t.id].left, t.id, n);
    } else if n in Ids(t.right) {
      NodeFilled(m, q, t.right, m[t.id].right, t.id, n);
    }
  }

  /** Different nodes with a link each take different links. */
  lemma {:induction false} Matched(ids: set<MapNode>, ks: set<Link>, home: map<LinkedList, MapNode>, owner: map<Link, LinkedList?>)
    requires Homes(home, ids)
    requires forall n | n in ids :: exists k | k in ks :: k in owner && owner[k] == n.listOfProcs
    ensures |ids| <= |ks|
  {
    if n :| n in ids {
      var k :| k in ks && k in owner && owner[k] == n.listOfProcs;
      forall n' | n' in ids - {n}
        ensures exists k' | k' in ks - {k} :: k' in owner && owner[k'] == n'.listOfProcs
      {
        var k' :| k' in ks && k' in owner && owner[k'] == n'.listOfProcs;
        assert k' in ks - {k};
      }
      Matched(ids - {n}, ks - {k}, home, owner);
    }
  }

  lemma {:induction false} KeysTakeLinks(m: Mem, s: Shape, ns: NodeState, t: Tree, root: MapNode?)
    requires LinksOk(m, s) && SchedOk(ns, s.queues, t, root, Leaf, null) && s.freeL != [] && |ns.mem| >= |m.links|
    ensures ns.freeN != []
  {
    var free := s.freeL[0];
    var ks := s.owner.Keys - {free};
    forall n | n in Ids(t)
      ensures exists k | k in ks :: k in s.owner && s.owner[k] == n.listOfProcs
    {
      NodeFilled(ns.mem, s.queues, t, root, null, n);
      var l := n.listOfProcs;
      assert ListOk(m, s, l);
      assert s.chains[l][0] in ks;
    }
    Matched(Ids(t), ks, ns.home, s.owner);
    TreeSize(t);
    NodesConserved(ns, s.queues, t, root, Leaf, null);
  }

  /** initSchedDS: three empty queues over NPROCLIST free links and NPROCMAP free nodes. */
  method InitSchedDS() returns (s: Scheduler)
    ensures fresh(s) && s.Valid() && s.tree == Leaf && s.RoundRobin() == [] && s.Running() == []
    ensures s.LinksLeft() == |s.pool.links| == NPROCLIST && s.NodesLeft() == |s.nodes| == NPROCMAP
    ensures fresh(s.pool) && fresh(s.priorityQ) && fresh(s.nodes) && fresh(s.pool.links) && fresh(s.pool.lists)
  {
    hide Scheduler.Valid;
    hide Scheduler.RoundRobin;
    hide Scheduler.Running;
    hide Scheduler.NodesLeft;
    hide Scheduler.LinksLeft;
    hide QueuePool.Valid;
    s := new Scheduler();
    s.FillPools();
    s.EmptyPoolSize();
  }

  /** The keys are all below n. */
  ghost predicate KeysBelow(bs: seq<Bucket>, n: int) {
    forall i | 0 <= i < |bs| :: bs[i].key < n
  }

  lemma {:induction false} PutKeysBelow(bs: seq<Bucket>, n: int, p: Proc)
    requires KeysBelow(bs, n)
    ensures KeysBelow(SchedSpec.Put(bs, n, p), n + 1)
  {
    if bs != [] {
      PutKeysBelow(bs[1..], n, p);
    }
  }

  lemma InsertOccurs(es: seq<Entry>, e: Entry, p: Proc)
    requires Occurs(es, p) || e.p == p
    ensures Occurs(Insert(es, e), p)
  {
    var k := Place(es, e.key);
    if Occurs(es, p) {
      var i :| 0 <= i < |es| && es[i].p == p;
      assert Insert(es, e)[if i < k then i else i + 1].p == p;
    } else {
      assert Insert(es, e)[k].p == p;
    }
  }

  /** NPROCMAP processes with different accumulators take every node; extractProc then does not find
      process 0, although it waits. */
  method QueuedButAbsent() returns (s: Scheduler, found: bool)
    ensures s.Valid() && Occurs(s.Waiting(), 0) && s.NodesLeft() == 0 && !found
  {
    hide Scheduler.NodesLeft;
    hide Scheduler.LinksLeft;
    hide Scheduler.Valid;
    hide Scheduler.RoundRobin;
    hide Scheduler.Running;
    hide InOrder;
    hide Occurs;
    s := InitSchedDS();
    found := s.FullQueue();
  }

  lemma EmptyInOrder()
    ensures InOrder(Leaf) == []
  {
  }

  /** A node that is taken and given back has only changed its key. */
  lemma GivenBack(m: NodeMem, n: MapNode, key: int)
    requires n in m && m[n] == NodeVal(m[n].key, m[n].next, null, null, null)
    ensures m[n := m[n].(next := null, key := key)][n := NodeVal(key, m[n].next, null, null, null)] == m[n := m[n].(key := key)]
  {
  }

  /** List l is empty now and no other list outside the nodes has changed. */
  ghost predicate Emptied(home: map<LinkedList, MapNode>, q: Queues, q': Queues, l: LinkedList) {
    l in q' && q'[l] == [] && forall k | k in q && k !in home && k != l :: k in q' && q'[k] == q[k]
  }

  lemma FilingEmpties(home: map<LinkedList, MapNode>, q: Queues, n: LinkedList, ps: seq<Proc>, l: LinkedList)
    requires n in home
    ensures Emptied(home, q, q[n := ps][l := []], l)
  {
  }

  lemma NoNodes(q: Queues)
    ensures SchedOk(NodeState(map[], null, [], map[]), q, Leaf, null, Leaf, null)
  {
  }

  lemma {:induction false} OneBucket(n: MapNode, ps: seq<Proc>)
    ensures Entries(InOrder(Node(n, 0, ps, Leaf, Leaf))) == Tagged(0, ps)
  {
  }

  lemma {:induction false} NoneOccurs(t: Tree, p: Proc)
    requires InOrder(t) == []
    ensures !Occurs(Entries(InOrder(t)), p)
  {
  }

  lemma StartEmpty(home: map<LinkedList, MapNode>, q: Queues)
    ensures InOrder(Leaf) == [] && SameOutside(home, q, q)
  {
  }

  lemma SameOutsideChain(home: map<LinkedList, MapNode>, a: Queues, b: Queues, c: Queues)
    requires SameOutside(home, a, b) && SameOutside(home, b, c)
    ensures SameOutside(home, a, c)
  {
  }

  /** put seen on the sequence of entries. */
  lemma {:induction false} PutOnEntries(home: map<LinkedList, MapNode>, key: int, p: Proc, t: Tree, s: Shape, f: seq<MapNode>,
                     ok: bool, t': Tree, s': Shape, f': seq<MapNode>)
    requires PutEffect(home, key, p, t, s, f, ok, t', s', f') && Rising(InOrder(t)) && Filled(InOrder(t))
    ensures ok <==> s.freeL != [] && (HasKey(InOrder(t), key) || f != [])
    ensures Entries(InOrder(t')) == if ok then Insert(Entries(InOrder(t)), Entry(key, p)) else Entries(InOrder(t))
    ensures SameOutside(home, s.queues, s'.queues)
    ensures InOrder(t') == if ok then SchedSpec.Put(InOrder(t), key, p) else InOrder(t)
    ensures |s'.freeL| == |s.freeL| - (if ok then 1 else 0) && |f'| == |f| - (if ok && !HasKey(InOrder(t), key) then 1 else 0)
  {
    PutInserts(InOrder(t), key, p);
  }

  lemma PutOutside(home: map<LinkedList, MapNode>, key: int, p: Proc, t: Tree, s: Shape, f: seq<MapNode>,
                   ok: bool, t': Tree, s': Shape, f': seq<MapNode>)
    requires PutEffect(home, key, p, t, s, f, ok, t', s', f')
    ensures SameOutside(home, s.queues, s'.queues)
  {
  }

  /** One turn of extractProc's loop on the values, when the process is p. */
  lemma {:induction false} RefiledSame(home: map<LinkedList, MapNode>, es: seq<Entry>, p: Proc, acc: Proc -> int, n: nat, found: bool,
                    t: Tree, o: Tree, s: Shape, f: seq<MapNode>, t': Tree, s': Shape, f': seq<MapNode>)
    requires InOrder(t) != [] && Filled(InOrder(t)) && ExtractEffect(home, t, s, f, Some(p), t', s', f')
    requires Refiling(es, p, acc, n, InOrder(t), InOrder(o), |f|, found)
    ensures Refiling(es, p, acc, n, InOrder(t'), InOrder(o), |f'|, true)
  {
    hide Refiling;
    hide SameOutside;
    RefilingDrop(es, p, acc, n, InOrder(t), InOrder(o), |f|, found);
    assert |f'| == |f| + |InOrder(t)| - |InOrder(t')|;
  }

  /** One turn of extractProc's loop on the values, when the process is another one. */
  lemma {:induction false} RefiledOther(home: map<LinkedList, MapNode>, es: seq<Entry>, p: Proc, acc: Proc -> int, n: nat, found: bool,
                     t: Tree, o: Tree, s: Shape, f: seq<MapNode>, head: Proc, t': Tree, s1: Shape, f1: seq<MapNode>,
                     ok: bool, o': Tree, s2: Shape, f2: seq<MapNode>)
    requires InOrder(t) != [] && Filled(InOrder(t)) && ExtractEffect(home, t, s, f, Some(head), t', s1, f1)
    requires head != p && PutEffect(home, acc(head), head, o, s1, f1, ok, o', s2, f2)
    requires Refiling(es, p, acc, n, InOrder(t), InOrder(o), |f|, found)
    ensures ok && Refiling(es, p, acc, n, InOrder(t'), InOrder(o'), |f2|, found)
  {
    hide ExtractEffect;
    hide PutEffect;
    hide Refiling;
    hide InOrder;
    hide SchedSpec.Put;
    hide SchedSpec.ExtractMin;
    hide HasKey;
    hide Filled;
    ExtractedSizes(home, t, s, f, head, t', s1, f1);
    PutSizes(home, acc(head), head, o, s1, f1, ok, o', s2, f2);
    var bs, ts := InOrder(t), InOrder(o);
    RefilingHead(es, p, acc, n, bs, ts, |f|, found);
    assert acc(head) == bs[0].key && ok;
    var ts' := SchedSpec.Put(ts, bs[0].key, bs[0].procs[0]);
    assert InOrder(o') == ts' && |f2| == |f| + |bs| - |InOrder(t')| - |ts'| + |ts|;
    RefilingKeep(es, p, acc, n, bs, ts, |f|, found);
  }

  lemma {:induction false} ExtractedSizes(home: map<LinkedList, MapNode>, t: Tree, s: Shape, f: seq<MapNode>, head: Proc, t': Tree, s': Shape, f': seq<MapNode>)
    requires InOrder(t) != [] && ExtractEffect(home, t, s, f, Some(head), t', s', f')
    ensures InOrder(t)[0].procs != [] && head == InOrder(t)[0].procs[0] && InOrder(t') == SchedSpec.ExtractMin(InOrder(t))
    ensures s'.freeL != [] && |f'| == |f| + |InOrder(t)| - |InOrder(t')|
  {
  }

  lemma {:induction false} PutSizes(home: map<LinkedList, MapNode>, key: int, p: Proc, t: Tree, s: Shape, f: seq<MapNode>,
                 ok: bool, t': Tree, s': Shape, f': seq<MapNode>)
    requires PutEffect(home, key, p, t, s, f, ok, t', s', f')
    ensures ok <==> s.freeL != [] && (HasKey(InOrder(t), key) || |f| > 0)
    ensures ok ==> InOrder(t') == SchedSpec.Put(InOrder(t), key, p) && |f'| == |f| - (if HasKey(InOrder(t), key) then 0 else 1)
  {
  }

  /** extractMin seen on the sequence of entries. */
  lemma {:induction false} ExtractedFirst(home: map<LinkedList, MapNode>, t: Tree, s: Shape, f: seq<MapNode>,
                       p: Option<Proc>, t': Tree, s': Shape, f': seq<MapNode>)
    requires ExtractEffect(home, t, s, f, p, t', s', f') && Filled(InOrder(t)) && InOrder(t) != []
    ensures Entries(InOrder(t)) != [] && p == Some(Entries(InOrder(t))[0].p)
    ensures Entries(InOrder(t')) == Entries(InOrder(t))[1..]
    ensures |s'.freeL| == |s.freeL| + 1 && |f'| + |InOrder(t')| == |f| + |InOrder(t)|
    ensures SameOutside(home, s.queues, s'.queues)
  {
    ExtractMinDropsFirst(InOrder(t));
  }

  lemma {:induction false} ExtractedMaybe(home: map<LinkedList, MapNode>, t: Tree, s: Shape, f: seq<MapNode>,
                       p: Option<Proc>, t': Tree, s': Shape, f': seq<MapNode>)
    requires ExtractEffect(home, t, s, f, p, t', s', f') && Filled(InOrder(t))
    ensures p == if Entries(InOrder(t)) == [] then None else Some(Entries(InOrder(t))[0].p)
    ensures Entries(InOrder(t')) == if p == None then [] else Entries(InOrder(t))[1..]
    ensures p != None ==> s'.freeL != []
    ensures |f'| + |InOrder(t')| == |f| + |InOrder(t)|
    ensures SameOutside(home, s.queues, s'.queues)
  {
    if InOrder(t) != [] {
      ExtractMinDropsFirst(InOrder(t));
    }
  }

  lemma NodeListsAtHome(ns: NodeState, q: Queues, t: Tree, root: MapNode?, o: Tree, oroot: MapNode?)
    requires SchedOk(ns, q, t, root, o, oroot)
    ensures forall n | n in ns.mem :: n.listOfProcs in ns.home
  {
  }

  /** A queue that belongs to no node may change. */
  lemma OtherQueue(ns: NodeState, q: Queues, q': Queues, l: LinkedList, t: Tree, root: MapNode?, o: Tree, oroot: MapNode?)
    requires SchedOk(ns, q, t, root, o, oroot) && l !in ns.home && l in q && (q' == q || (l in q' && q' == q[l := q'[l]]))
    ensures SchedOk(ns, q', t, root, o, oroot)
  {
    NodeListsAtHome(ns, q, t, root, o, oroot);
    ForeignQueue(ns, q, q', t, root, o, oroot);
  }

  lemma NothingToExtract(home: map<LinkedList, MapNode>, s: Shape, f: seq<MapNode>)
    ensures ExtractEffect(home, Leaf, s, f, None, Leaf, s, f)
  {
  }

  lemma {:induction false} TreeFacts(ns: NodeState, q: Queues, t: Tree, root: MapNode?, o: Tree, oroot: MapNode?)
    requires SchedOk(ns, q, t, root, o, oroot)
    ensures TreeAt(ns.mem, q, t, root, null) && (t.Leaf? <==> root == null) && (o.Leaf? <==> oroot == null)
  {
  }
}
