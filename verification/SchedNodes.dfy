/** The pool of tree nodes: every node is free, with no links and an empty list, or belongs to
    exactly one of at most two maps (the priority queue and the temporary map of extractProc). */
module SchedNodes {
  import opened SchedSpec
  import opened SchedTree

  datatype NodeState = NodeState(mem: NodeMem, free: MapNode?, freeN: seq<MapNode>, home: map<LinkedList, MapNode>)

  function NodeAfter(c: seq<MapNode>, i: nat): MapNode? {
    if i + 1 < |c| then c[i + 1] else null
  }

  ghost predicate NodeChain(m: NodeMem, first: MapNode?, c: seq<MapNode>) {
    && first == (if c == [] then null else c[0])
    && forall i {:trigger m[c[i]]} {:trigger c[i] in m} | 0 <= i < |c| :: c[i] in m && m[c[i]].next == NodeAfter(c, i)
  }

  /** A node as it lies in the pool. */
  ghost predicate Blank(m: NodeMem, q: Queues, n: MapNode) {
    && n in m && m[n].parent == null && m[n].left == null && m[n].right == null
    && n.listOfProcs in q && q[n.listOfProcs] == []
  }

  ghost predicate InPool(ns: NodeState, used: set<MapNode>, n: MapNode) {
    n in used || n in ns.freeN
  }

  /** The free nodes and the used ones partition the pool. */
  ghost predicate NodesOk(ns: NodeState, q: Queues, used: set<MapNode>) {
    && NodeChain(ns.mem, ns.free, ns.freeN)
    && (forall i {:trigger Blank(ns.mem, q, ns.freeN[i])} | 0 <= i < |ns.freeN| :: Blank(ns.mem, q, ns.freeN[i]))
    && (forall i | 0 <= i < |ns.freeN| :: ns.freeN[i] !in used)
    && used <= ns.mem.Keys
    && (forall n {:trigger InPool(ns, used, n)} | n in ns.mem :: InPool(ns, used, n))
    && Homes(ns.home, ns.mem.Keys)
    && (forall n | n in ns.mem :: n.listOfProcs in q)
  }

  /** A search tree with no empty bucket, correctly linked. */
  ghost predicate MapOk(m: NodeMem, q: Queues, t: Tree, root: MapNode?) {
    TreeAt(m, q, t, root, null) && Simple(t) && Rising(InOrder(t)) && Filled(InOrder(t))
  }

  ghost predicate SchedOk(ns: NodeState, q: Queues, t: Tree, root: MapNode?, o: Tree, oroot: MapNode?) {
    && NodesOk(ns, q, Ids(t) + Ids(o))
    && MapOk(ns.mem, q, t, root) && MapOk(ns.mem, q, o, oroot) && Ids(t) !! Ids(o)
  }

  lemma Swap(ns: NodeState, q: Queues, t: Tree, root: MapNode?, o: Tree, oroot: MapNode?)
    requires SchedOk(ns, q, t, root, o, oroot)
    ensures SchedOk(ns, q, o, oroot, t, root)
  {
    assert Ids(t) + Ids(o) == Ids(o) + Ids(t);
  }

  /** Lists that are not part of a node do not matter. */
  lemma ForeignQueue(ns: NodeState, q: Queues, q': Queues, t: Tree, root: MapNode?, o: Tree, oroot: MapNode?)
    requires SchedOk(ns, q, t, root, o, oroot)
    requires forall n | n in ns.mem && n.listOfProcs in q :: n.listOfProcs in q' && q'[n.listOfProcs] == q[n.listOfProcs]
    ensures SchedOk(ns, q', t, root, o, oroot)
  {
    TreeFrame(ns.mem, q, ns.mem, q', t, root, null);
    TreeFrame(ns.mem, q, ns.mem, q', o, oroot, null);
    forall i | 0 <= i < |ns.freeN|
      ensures Blank(ns.mem, q', ns.freeN[i])
    {
      assert Blank(ns.mem, q, ns.freeN[i]);
    }
  }

  // ----- the free list of nodes -----

  lemma {:induction false} NodeChainSimple(m: NodeMem, first: MapNode?, c: seq<MapNode>, i: nat, j: nat)
    requires NodeChain(m, first, c) && i < j < |c|
    ensures c[i] != c[j]
    decreases |c| - j
  {
    assert m[c[i]].next == NodeAfter(c, i) && m[c[j]].next == NodeAfter(c, j);
    if c[i] == c[j] && j + 1 < |c| {
      NodeChainSimple(m, first, c, i + 1, j + 1);
    }
  }

  lemma FirstNodeApart(m: NodeMem, first: MapNode?, c: seq<MapNode>)
    requires NodeChain(m, first, c) && c != []
    ensures forall i | 0 < i < |c| :: c[i] != c[0]
  {
    forall i | 0 < i < |c|
      ensures c[i] != c[0]
    {
      NodeChainSimple(m, first, c, 0, i);
    }
  }

  lemma NodeChainTail(m: NodeMem, m': NodeMem, first: MapNode?, c: seq<MapNode>)
    requires NodeChain(m, first, c) && c != []
    requires forall i | 0 < i < |c| && c[i] in m :: c[i] in m' && m'[c[i]] == m[c[i]]
    ensures c[0] in m && NodeChain(m', m[c[0]].next, c[1..])
  {
  }

  lemma NodeChainPush(m: NodeMem, m': NodeMem, first: MapNode?, c: seq<MapNode>, x: MapNode)
    requires NodeChain(m, first, c) && x !in c && x in m' && m'[x].next == first
    requires forall i | 0 <= i < |c| && c[i] in m :: c[i] in m' && m'[c[i]] == m[c[i]]
    ensures NodeChain(m', x, [x] + c)
  {
  }

  /** Taking the first free node into use; only nodes in use and that node change. */
  lemma TakeNode(ns: NodeState, q: Queues, used: set<MapNode>, m': NodeMem, q': Queues)
    requires NodesOk(ns, q, used) && ns.freeN != []
    requires m'.Keys == ns.mem.Keys && q'.Keys == q.Keys
    requires forall i | 0 < i < |ns.freeN| && ns.freeN[i] in ns.mem ::
               ns.freeN[i] in m' && m'[ns.freeN[i]] == ns.mem[ns.freeN[i]]
    requires forall i | 0 < i < |ns.freeN| && ns.freeN[i].listOfProcs in q ::
               ns.freeN[i].listOfProcs in q' && q'[ns.freeN[i].listOfProcs] == q[ns.freeN[i].listOfProcs]
    ensures ns.freeN[0] in ns.mem
    ensures NodesOk(NodeState(m', ns.mem[ns.freeN[0]].next, ns.freeN[1..], ns.home), q', used + {ns.freeN[0]})
  {
    var n := ns.freeN[0];
    assert n in ns.mem;
    var ns' := NodeState(m', ns.mem[n].next, ns.freeN[1..], ns.home);
    NodeChainTail(ns.mem, m', ns.free, ns.freeN);
    FirstNodeApart(ns.mem, ns.free, ns.freeN);
    forall i | 0 <= i < |ns'.freeN|
      ensures Blank(m', q', ns'.freeN[i]) && ns'.freeN[i] !in used + {n}
    {
      assert ns'.freeN[i] == ns.freeN[i + 1];
      assert Blank(ns.mem, q, ns.freeN[i + 1]);
    }
    forall x | x in m'
      ensures InPool(ns', used + {n}, x)
    {
      assert InPool(ns, used, x);
      if x !in used && x != n {
        var i :| 0 <= i < |ns.freeN| && ns.freeN[i] == x;
        assert ns'.freeN[i - 1] == x;
      }
    }
  }

  /** Giving node n back to the pool. */
  lemma GiveNode(ns: NodeState, q: Queues, used: set<MapNode>, n: MapNode, m': NodeMem, q': Queues)
    requires NodesOk(ns, q, used) && n in used
    requires m'.Keys == ns.mem.Keys && q'.Keys == q.Keys
    requires Blank(m', q', n) && m'[n].next == ns.free
    requires forall i | 0 <= i < |ns.freeN| && ns.freeN[i] in ns.mem ::
               ns.freeN[i] in m' && m'[ns.freeN[i]] == ns.mem[ns.freeN[i]]
    requires forall i | 0 <= i < |ns.freeN| && ns.freeN[i].listOfProcs in q ::
               ns.freeN[i].listOfProcs in q' && q'[ns.freeN[i].listOfProcs] == q[ns.freeN[i].listOfProcs]
    ensures NodesOk(NodeState(m', n, [n] + ns.freeN, ns.home), q', used - {n})
  {
    var ns' := NodeState(m', n, [n] + ns.freeN, ns.home);
    assert n !in ns.freeN;
    NodeChainPush(ns.mem, m', ns.free, ns.freeN, n);
    forall i | 0 <= i < |ns'.freeN|
      ensures Blank(m', q', ns'.freeN[i]) && ns'.freeN[i] !in used - {n}
    {
      if i > 0 {
        assert ns'.freeN[i] == ns.freeN[i - 1];
        assert Blank(ns.mem, q, ns.freeN[i - 1]);
      }
    }
    forall x | x in m'
      ensures InPool(ns', used - {n}, x)
    {
      assert InPool(ns, used, x);
      if x == n {
        assert ns'.freeN[0] == n;
      } else if x !in used {
        var i :| 0 <= i < |ns.freeN| && ns.freeN[i] == x;
        assert ns'.freeN[i + 1] == x;
      }
    }
  }

  // ----- operations on a map, beside another map -----

  /** Changing the list of node n changes the list of no other node. */
  lemma ListsApart(home: map<LinkedList, MapNode>, ids: set<MapNode>, q: Queues, n: MapNode, ps: seq<Proc>)
    requires Homes(home, ids) && n in ids
    ensures forall x | x in ids && x != n && x.listOfProcs in q ::
              x.listOfProcs in q[n.listOfProcs := ps] && q[n.listOfProcs := ps][x.listOfProcs] == q[x.listOfProcs]
  {
  }

  /** The other map does not notice. */
  lemma {:induction false} OtherMapOk(m: NodeMem, q: Queues, m': NodeMem, q': Queues, o: Tree, oroot: MapNode?)
    requires MapOk(m, q, o, oroot) && Ids(o) <= m.Keys
    requires forall n | n in Ids(o) :: n in m' && m'[n] == m[n]
    requires forall n | n in Ids(o) && n.listOfProcs in q :: n.listOfProcs in q' && q'[n.listOfProcs] == q[n.listOfProcs]
    ensures MapOk(m', q', o, oroot)
  {
    TreeFrame(m, q, m', q', o, oroot, null);
  }

  /** Appending to the list of the node that has the key. */
  lemma {:induction false} PutExisting(ns: NodeState, q: Queues, t: Tree, root: MapNode?, o: Tree, oroot: MapNode?, key: int, p: Proc, n: MapNode)
    requires SchedOk(ns, q, t, root, o, oroot) && Found(t, key) && End(t, key).listOfProcs in q
    ensures var l := End(t, key).listOfProcs;
            SchedOk(ns, q[l := q[l] + [p]], TreePut(t, key, p, n), root, o, oroot)
  {
    var e := End(t, key);
    var q' := q[e.listOfProcs := q[e.listOfProcs] + [p]];
    EndIn(t, key);
    PutFound(ns.mem, q, t, root, null, key, p, n, ns.home);
    PutSimple(t, key, p, n);
    InOrderPut(t, key, p, n);
    PutKeepsOrder(InOrder(t), key, p);
    TreeFrame(ns.mem, q, ns.mem, q', o, oroot, null);
    forall i | 0 <= i < |ns.freeN|
      ensures Blank(ns.mem, q', ns.freeN[i])
    {
      assert Blank(ns.mem, q, ns.freeN[i]);
    }
  }

  /** The node memory after the first free node is filed under a key that t does not have. */
  function Filed(ns: NodeState, t: Tree, key: int): NodeMem
    requires ns.freeN != [] && (t.Node? ==> End(t, key) in ns.mem)
  {
    var n := ns.freeN[0];
    if t.Leaf? then ns.mem[n := NodeVal(key, null, null, null, null)] else Hang(ns.mem, End(t, key), key, n)
  }

  /** Filling the node and hanging it below e, one after the other. */
  lemma {:induction false} FiledInSteps(ns: NodeState, t: Tree, key: int, e: MapNode, n: MapNode)
    requires ns.freeN != [] && n == ns.freeN[0] && t.Node? && e == End(t, key) && e in ns.mem && e != n
    ensures var m := ns.mem[n := NodeVal(key, null, null, null, null)];
            m[e := if key < m[e].key then m[e].(left := n) else m[e].(right := n)][n := m[n].(parent := e)] == Filed(ns, t, key)
  {
  }

  lemma {:induction false} PutFreshMap(ns: NodeState, q: Queues, t: Tree, root: MapNode?, n: MapNode, key: int, p: Proc)
    requires MapOk(ns.mem, q, t, root) && !Found(t, key) && ns.freeN != [] && n == ns.freeN[0] && n !in Ids(t)
    requires Homes(ns.home, Ids(t) + {n}) && (t.Node? ==> End(t, key) in ns.mem)
    ensures MapOk(Filed(ns, t, key), q[n.listOfProcs := [p]], TreePut(t, key, p, n), if t.Leaf? then n else root)
  {
    if t.Node? {
      PutMissing(ns.mem, q, t, root, null, key, p, n, ns.home);
    }
    PutSimple(t, key, p, n);
    InOrderPut(t, key, p, n);
    PutKeepsOrder(InOrder(t), key, p);
  }

  lemma {:induction false} PutFresh(ns: NodeState, q: Queues, t: Tree, root: MapNode?, o: Tree, oroot: MapNode?, key: int, p: Proc)
    requires SchedOk(ns, q, t, root, o, oroot) && !Found(t, key) && ns.freeN != []
    ensures ns.freeN[0] in ns.mem && (t.Node? ==> End(t, key) in ns.mem)
    ensures var n := ns.freeN[0];
            SchedOk(NodeState(Filed(ns, t, key), ns.mem[n].next, ns.freeN[1..], ns.home), q[n.listOfProcs := [p]],
                    TreePut(t, key, p, n), if t.Leaf? then n else root, o, oroot)
  {
    var n := ns.freeN[0];
    assert Blank(ns.mem, q, n);
    TreeDomain(ns.mem, q, t, root, null);
    if t.Node? {
      EndIn(t, key);
    }
    PutFreshMap(ns, q, t, root, n, key, p);
    var m', q' := Filed(ns, t, key), q[n.listOfProcs := [p]];
    PutSimple(t, key, p, n);
    FirstNodeApart(ns.mem, ns.free, ns.freeN);
    ListsApart(ns.home, ns.mem.Keys, q, n, [p]);
    FiledElsewhere(ns, t, key);
    hide MapOk;
    hide Homes;
    hide Filed;
    hide TreePut;
    hide Blank;
    hide NodeChain;
    OtherMapOk(ns.mem, q, m', q', o, oroot);
    TakeNode(ns, q, Ids(t) + Ids(o), m', q');
    assert Ids(t) + Ids(o) + {n} == Ids(TreePut(t, key, p, n)) + Ids(o);
  }

  /** Filing changes the new node and a node of the tree only. */
  lemma {:induction false} FiledElsewhere(ns: NodeState, t: Tree, key: int)
    requires ns.freeN != [] && (t.Node? ==> End(t, key) in ns.mem && End(t, key) in Ids(t)) && ns.freeN[0] in ns.mem
    ensures Filed(ns, t, key).Keys == ns.mem.Keys
    ensures forall x | x in ns.mem && x !in Ids(t) && x != ns.freeN[0] :: Filed(ns, t, key)[x] == ns.mem[x]
  {
  }

  /** Taking one of several processes off the least bucket. */
  lemma {:induction false} ExtractOneOfMany(ns: NodeState, q: Queues, t: Tree, root: MapNode?, o: Tree, oroot: MapNode?)
    requires SchedOk(ns, q, t, root, o, oroot) && t.Node? && |Least(t).procs| > 1
    ensures var l := Least(t).id.listOfProcs;
            SchedOk(ns, q[l := Least(t).procs[1..]], TreeExtract(t), root, o, oroot)
  {
    var l := Least(t).id.listOfProcs;
    var q' := q[l := Least(t).procs[1..]];
    LeastIn(t);
    ExtractShortens(ns.mem, q, t, root, null, ns.home);
    ExtractSimple(t);
    InOrderExtract(t);
    ExtractMinKeepsOrder(InOrder(t));
    TreeFrame(ns.mem, q, ns.mem, q', o, oroot, null);
    forall i | 0 <= i < |ns.freeN|
      ensures Blank(ns.mem, q', ns.freeN[i])
    {
      assert Blank(ns.mem, q, ns.freeN[i]);
    }
  }

  lemma {:induction false} ExtractLastMap(m: NodeMem, q: Queues, t: Tree, root: MapNode, m': NodeMem, home: map<LinkedList, MapNode>)
    requires MapOk(m, q, t, root) && t.Node? && |Least(t).procs| == 1 && Homes(home, Ids(t))
    requires Least(t).id in m && Bypassed(m, m', root, Least(t).id)
    ensures MapOk(m', q[Least(t).id.listOfProcs := []], TreeExtract(t), if Least(t).id == root then m[root].right else root)
  {
    LeastIn(t);
    ExtractUnlinks(m, q, m', q[Least(t).id.listOfProcs := []], t, root, null);
    ExtractSimple(t);
    InOrderExtract(t);
    ExtractMinKeepsOrder(InOrder(t));
  }

  /** Nodes outside the tree of the least node do not change when it is bypassed. */
  lemma {:induction false} BypassedFrame(m: NodeMem, q: Queues, t: Tree, root: MapNode, m': NodeMem)
    requires MapOk(m, q, t, root) && t.Node? && Least(t).id in m && Bypassed(m, m', root, Least(t).id)
    ensures forall n | n in m && n !in Ids(t) :: n in m' && m'[n] == m[n]
  {
    LeastIn(t);
    LeastParent(m, q, t, root, null);
  }

  /** Taking the last process off the least bucket, unlinking its node and giving it back. */
  lemma {:induction false} ExtractLast(ns: NodeState, q: Queues, t: Tree, root: MapNode, o: Tree, oroot: MapNode?, m': NodeMem)
    requires SchedOk(ns, q, t, root, o, oroot) && t.Node? && |Least(t).procs| == 1
    requires m'.Keys == ns.mem.Keys && Least(t).id in ns.mem && Bypassed(ns.mem, m', root, Least(t).id)
    requires m'[Least(t).id] == NodeVal(Least(t).key, ns.free, null, null, null)
    ensures var n := Least(t).id;
            SchedOk(NodeState(m', n, [n] + ns.freeN, ns.home), q[n.listOfProcs := []],
                    TreeExtract(t), if n == root then ns.mem[root].right else root, o, oroot)
  {
    var n := Least(t).id;
    var q' := q[n.listOfProcs := []];
    LeastIn(t);
    ExtractLastMap(ns.mem, q, t, root, m', ns.home);
    BypassedFrame(ns.mem, q, t, root, m');
    ExtractSimple(t);
    ListsApart(ns.home, ns.mem.Keys, q, n, []);
    hide MapOk;
    hide Homes;
    hide Bypassed;
    hide TreeExtract;
    hide NodeChain;
    OtherMapOk(ns.mem, q, m', q', o, oroot);
    GiveNode(ns, q, Ids(t) + Ids(o), n, m', q');
    assert Ids(t) + Ids(o) - {n} == Ids(TreeExtract(t)) + Ids(o);
  }

  /** The least node of a map, as the code reads it. */
  lemma {:induction false} LeastCell(ns: NodeState, q: Queues, t: Tree, root: MapNode, o: Tree, oroot: MapNode?)
    requires SchedOk(ns, q, t, root, o, oroot) && t.Node?
    ensures Least(t).procs != [] && InOrder(t) != [] && InOrder(t)[0] == Bucket(Least(t).key, Least(t).procs)
    ensures Least(t).id.listOfProcs in q && q[Least(t).id.listOfProcs] == Least(t).procs
  {
    LeastProcs(ns.mem, q, t, root, null);
  }

  lemma {:induction false} LeastProcs(m: NodeMem, q: Queues, t: Tree, root: MapNode?, parent: MapNode?)
    requires TreeAt(m, q, t, root, parent) && t.Node? && Filled(InOrder(t))
    ensures Least(t).procs != [] && InOrder(t) != [] && InOrder(t)[0] == Bucket(Least(t).key, Least(t).procs)
    ensures Least(t).id.listOfProcs in q && q[Least(t).id.listOfProcs] == Least(t).procs
    ensures Least(t).id in m && m[Least(t).id].key == Least(t).key
  {
    var a, x := InOrder(t.left), Bucket(t.key, t.procs);
    if t.left.Node? {
      assert forall i | 0 <= i < |a| :: a[i] == InOrder(t)[i];
      LeastProcs(m, q, t.left, m[t.id].left, t.id);
      assert InOrder(t)[0] == a[0];
    } else {
      assert InOrder(t)[0] == x;
    }
  }

  /** The key of a free node does not matter. */
  lemma RekeyFree(ns: NodeState, q: Queues, t: Tree, root: MapNode?, o: Tree, oroot: MapNode?, key: int)
    requires SchedOk(ns, q, t, root, o, oroot) && ns.freeN != []
    ensures ns.freeN[0] in ns.mem
    ensures SchedOk(ns.(mem := ns.mem[ns.freeN[0] := ns.mem[ns.freeN[0]].(key := key)]), q, t, root, o, oroot)
  {
    var n := ns.freeN[0];
    assert n in ns.mem;
    var ns' := ns.(mem := ns.mem[n := ns.mem[n].(key := key)]);
    TreeFrame(ns.mem, q, ns'.mem, q, t, root, null);
    TreeFrame(ns.mem, q, ns'.mem, q, o, oroot, null);
    forall i | 0 <= i < |ns.freeN|
      ensures Blank(ns'.mem, q, ns.freeN[i]) && ns'.mem[ns.freeN[i]].next == NodeAfter(ns.freeN, i)
    {
      assert Blank(ns.mem, q, ns.freeN[i]);
      assert ns.mem[ns.freeN[i]].next == NodeAfter(ns.freeN, i);
    }
    forall x | x in ns'.mem
      ensures InPool(ns', Ids(t) + Ids(o), x)
    {
      assert InPool(ns, Ids(t) + Ids(o), x);
    }
  }

  /** What the code may rely on about the first free node. */
  lemma FreeNode(ns: NodeState, q: Queues, t: Tree, root: MapNode?, o: Tree, oroot: MapNode?)
    requires SchedOk(ns, q, t, root, o, oroot)
    ensures ns.free == null <==> ns.freeN == []
    ensures ns.freeN != [] ==> ns.free == ns.freeN[0] && Blank(ns.mem, q, ns.freeN[0])
  {
    if ns.freeN != [] {
      assert Blank(ns.mem, q, ns.freeN[0]);
    }
  }

  lemma {:induction false} EndInUse(ns: NodeState, q: Queues, t: Tree, root: MapNode?, o: Tree, oroot: MapNode?, key: int)
    requires SchedOk(ns, q, t, root, o, oroot) && t.Node?
    ensures End(t, key) in ns.mem && End(t, key).listOfProcs in q && (ns.freeN != [] ==> End(t, key) != ns.freeN[0])
  {
    EndIn(t, key);
    TreeDomain(ns.mem, q, t, root, null);
  }

  /** The neighbours of the least node, as the code reads them. */
  lemma {:induction false} LeastNeighbours(ns: NodeState, q: Queues, t: Tree, root: MapNode, o: Tree, oroot: MapNode?)
    requires SchedOk(ns, q, t, root, o, oroot) && t.Node?
    ensures Least(t).id in ns.mem
    ensures var v := ns.mem[Least(t).id];
            && (v.right != null ==> v.right in ns.mem && v.right != Least(t).id)
            && (Least(t).id == root ==> v.parent == null)
            && (Least(t).id != root ==> v.parent != null && v.parent in ns.mem && v.parent != Least(t).id && v.parent != v.right)
  {
    LeastIn(t);
    TreeDomain(ns.mem, q, t, root, null);
    NeighboursApart(ns.mem, q, t, root, null);
    LeastParent(ns.mem, q, t, root, null);
  }

  lemma {:induction false} NeighboursApart(m: NodeMem, q: Queues, t: Tree, root: MapNode, parent: MapNode?)
    requires TreeAt(m, q, t, root, parent) && Simple(t) && t.Node? && (parent != null ==> parent !in Ids(t))
    ensures Least(t).id in m && m[Least(t).id].parent != Least(t).id
    ensures m[Least(t).id].right != null ==> m[Least(t).id].parent != m[Least(t).id].right
  {
    LeastIn(t);
    if t.left.Node? {
      NeighboursApart(m, q, t.left, m[t.id].left, t.id);
    }
  }

  /** The first free node takes over a whole list, as the only node of an empty map. */
  lemma FileList(ns: NodeState, q: Queues, ps: seq<Proc>, l: LinkedList)
    requires SchedOk(ns, q, Leaf, null, Leaf, null) && ns.freeN != [] && ps != [] && l in q && l !in ns.home
    ensures ns.freeN[0] in ns.mem
    ensures var n := ns.freeN[0];
            SchedOk(NodeState(ns.mem[n := NodeVal(0, null, null, null, null)], ns.mem[n].next, ns.freeN[1..], ns.home),
                    q[n.listOfProcs := ps][l := []], Node(n, 0, ps, Leaf, Leaf), n, Leaf, null)
  {
    var n := ns.freeN[0];
    assert Blank(ns.mem, q, n);
    var m', q' := ns.mem[n := NodeVal(0, null, null, null, null)], q[n.listOfProcs := ps][l := []];
    var t := Node(n, 0, ps, Leaf, Leaf);
    assert InOrder(t) == [Bucket(0, ps)];
    FirstNodeApart(ns.mem, ns.free, ns.freeN);
    TakeNode(ns, q, Ids(Leaf) + Ids(Leaf), m', q');
    assert Ids(Leaf) + Ids(Leaf) + {n} == Ids(t) + Ids(Leaf);
  }

  /** The pools while they are being built: a new node is free. */
  lemma AddNode(ns: NodeState, q: Queues, n: MapNode, key: int)
    requires SchedOk(ns, q, Leaf, null, Leaf, null) && n !in ns.mem && n.listOfProcs !in q && n.listOfProcs !in ns.home
    ensures SchedOk(NodeState(ns.mem[n := NodeVal(key, ns.free, null, null, null)], n, [n] + ns.freeN, ns.home[n.listOfProcs := n]),
                    q[n.listOfProcs := []], Leaf, null, Leaf, null)
  {
    hide Blank;
    hide InPool;
    hide Homes;
    hide NodeChain;
    var ns' := NodeState(ns.mem[n := NodeVal(key, ns.free, null, null, null)], n, [n] + ns.freeN, ns.home[n.listOfProcs := n]);
    var q' := q[n.listOfProcs := []];
    AddedChain(ns, n, key);
    forall i | 0 <= i < |ns'.freeN|
      ensures Blank(ns'.mem, q', ns'.freeN[i])
    {
      AddedBlank(ns, q, n, key, i);
    }
    forall x | x in ns'.mem
      ensures InPool(ns', Ids(Leaf) + Ids(Leaf), x)
    {
      AddedInPool(ns, n, ns', Ids(Leaf) + Ids(Leaf), x);
    }
    AddedHome(ns, n, ns'.mem.Keys);
  }

  lemma AddedChain(ns: NodeState, n: MapNode, key: int)
    requires NodeChain(ns.mem, ns.free, ns.freeN) && n !in ns.mem
    ensures NodeChain(ns.mem[n := NodeVal(key, ns.free, null, null, null)], n, [n] + ns.freeN)
  {
    assert n !in ns.freeN;
    NodeChainPush(ns.mem, ns.mem[n := NodeVal(key, ns.free, null, null, null)], ns.free, ns.freeN, n);
  }

  lemma AddedBlank(ns: NodeState, q: Queues, n: MapNode, key: int, i: nat)
    requires i <= |ns.freeN| && n !in ns.mem && n.listOfProcs !in q && (i > 0 ==> Blank(ns.mem, q, ns.freeN[i - 1]))
    ensures Blank(ns.mem[n := NodeVal(key, ns.free, null, null, null)], q[n.listOfProcs := []], ([n] + ns.freeN)[i])
  {
  }

  lemma AddedInPool(ns: NodeState, n: MapNode, ns': NodeState, used: set<MapNode>, x: MapNode)
    requires ns'.freeN == [n] + ns.freeN && (x == n || InPool(ns, used, x))
    ensures InPool(ns', used, x)
  {
    if x == n {
      assert ns'.freeN[0] == n;
    } else if x !in used {
      var i :| 0 <= i < |ns.freeN| && ns.freeN[i] == x;
      assert ns'.freeN[i + 1] == x;
    }
  }

  lemma AddedHome(ns: NodeState, n: MapNode, ids: set<MapNode>)
    requires Homes(ns.home, ns.mem.Keys) && n.listOfProcs !in ns.home && ids == ns.mem.Keys + {n}
    ensures Homes(ns.home[n.listOfProcs := n], ids)
  {
  }

  // ----- how many nodes are free -----

  lemma {:induction false} DistinctSize(c: seq<MapNode>)
    requires forall i, j | 0 <= i < j < |c| :: c[i] != c[j]
    ensures |set n | n in c| == |c|
  {
    if c != [] {
      var k := |c| - 1;
      DistinctSize(c[..k]);
      assert (set n | n in c) == (set n | n in c[..k]) + {c[k]};
    }
  }

  /** Every node of the pool is free or stands for one key of one of the maps. */
  lemma {:induction false} NodesConserved(ns: NodeState, q: Queues, t: Tree, root: MapNode?, o: Tree, oroot: MapNode?)
    requires SchedOk(ns, q, t, root, o, oroot)
    ensures |ns.freeN| + |InOrder(t)| + |InOrder(o)| == |ns.mem|
  {
    var free := set n | n in ns.freeN;
    forall i, j | 0 <= i < j < |ns.freeN|
      ensures ns.freeN[i] != ns.freeN[j]
    {
      NodeChainSimple(ns.mem, ns.free, ns.freeN, i, j);
    }
    DistinctSize(ns.freeN);
    TreeSize(t);
    TreeSize(o);
    FreeOrUsed(ns, q, Ids(t) + Ids(o), free);
    assert |Ids(t) + Ids(o)| == |Ids(t)| + |Ids(o)|;
    assert |free + (Ids(t) + Ids(o))| == |free| + |Ids(t) + Ids(o)|;
  }

  lemma FreeOrUsed(ns: NodeState, q: Queues, used: set<MapNode>, free: set<MapNode>)
    requires NodesOk(ns, q, used) && free == set n | n in ns.freeN
    ensures ns.mem.Keys == free + used && free !! used
  {
    forall n | n in ns.mem
      ensures n in free + used
    {
      assert InPool(ns, used, n);
    }
  }
}
