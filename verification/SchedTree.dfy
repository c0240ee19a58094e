/** The linked search tree of ass1ds.cpp: its cells, the trees they form, and what changing a few
    fields does to the tree. */
module SchedTree {
  import opened SchedSpec

  class Link {
    var p: Proc
    var next: Link?

    constructor ()
      ensures p == 0 && next == null
    {
      p, next := 0, null;
    }
  }

  class LinkedList {
    var first: Link?
    var last: Link?

    constructor ()
      ensures first == null && last == null
    {
      first, last := null, null;
    }
  }

  class MapNode {
    var key: int
    const listOfProcs: LinkedList
    var next: MapNode?
    var parent: MapNode?
    var left: MapNode?
    var right: MapNode?

    constructor ()
      ensures next == null && parent == null && left == null && right == null
      ensures fresh(listOfProcs) && listOfProcs.first == null && listOfProcs.last == null
    {
      key := 0;
      listOfProcs := new LinkedList();
      next, parent, left, right := null, null, null, null;
    }
  }

  /** The fields of a node, apart from its list. */
  datatype NodeVal = NodeVal(key: int, next: MapNode?, parent: MapNode?, left: MapNode?, right: MapNode?)

  type NodeMem = map<MapNode, NodeVal>
  /** The processes on each list. */
  type Queues = map<LinkedList, seq<Proc>>

  datatype Tree = Leaf | Node(id: MapNode, key: int, procs: seq<Proc>, left: Tree, right: Tree)

  function InOrder(t: Tree): seq<Bucket> {
    match t
    case Leaf => []
    case Node(_, key, procs, l, r) => InOrder(l) + [Bucket(key, procs)] + InOrder(r)
  }

  function Ids(t: Tree): set<MapNode> {
    match t
    case Leaf => {}
    case Node(id, _, _, l, r) => {id} + Ids(l) + Ids(r)
  }

  /** No node occurs twice. */
  ghost predicate Simple(t: Tree) {
    match t
    case Leaf => true
    case Node(id, _, _, l, r) => id !in Ids(l) && id !in Ids(r) && Ids(l) !! Ids(r) && Simple(l) && Simple(r)
  }

  /** The cells below root form tree t. */
  ghost predicate TreeAt(m: NodeMem, q: Queues, t: Tree, root: MapNode?, parent: MapNode?) {
    match t
    case Leaf => root == null
    case Node(id, key, procs, l, r) =>
      && root == id && id in m && id.listOfProcs in q
      && m[id].key == key && m[id].parent == parent && q[id.listOfProcs] == procs
      && TreeAt(m, q, l, m[id].left, id) && TreeAt(m, q, r, m[id].right, id)
  }

  /** home names the node that each list belongs to. */
  ghost predicate Homes(home: map<LinkedList, MapNode>, ids: set<MapNode>) {
    forall n | n in ids :: n.listOfProcs in home && home[n.listOfProcs] == n
  }

  lemma {:induction false} TreeDomain(m: NodeMem, q: Queues, t: Tree, root: MapNode?, parent: MapNode?)
    requires TreeAt(m, q, t, root, parent)
    ensures forall n | n in Ids(t) :: n in m && n.listOfProcs in q
  {
    match t
    case Leaf =>
    case Node(id, _, _, l, r) =>
      TreeDomain(m, q, l, m[id].left, id);
      TreeDomain(m, q, r, m[id].right, id);
  }

  lemma {:induction false} TreeFrame(m: NodeMem, q: Queues, m': NodeMem, q': Queues, t: Tree, root: MapNode?, parent: MapNode?)
    requires TreeAt(m, q, t, root, parent)
    requires forall n | n in Ids(t) && n in m :: n in m' && m'[n] == m[n]
    requires forall n | n in Ids(t) && n.listOfProcs in q :: n.listOfProcs in q' && q'[n.listOfProcs] == q[n.listOfProcs]
    ensures TreeAt(m', q', t, root, parent)
  {
    match t
    case Leaf =>
    case Node(id, _, _, l, r) =>
      TreeFrame(m, q, m', q', l, m[id].left, id);
      TreeFrame(m, q, m', q', r, m[id].right, id);
  }

  // ----- put -----

  /** Where the search of key ends: at a node with that key, or at the node that lacks the child. */
  function End(t: Tree, key: int): MapNode
    requires t.Node?
  {
    if key < t.key && t.left.Node? then End(t.left, key)
    else if key > t.key && t.right.Node? then End(t.right, key)
    else t.id
  }

  predicate Found(t: Tree, key: int) {
    t.Node? && (if key < t.key then Found(t.left, key) else if key > t.key then Found(t.right, key) else true)
  }

  function TreePut(t: Tree, key: int, p: Proc, n: MapNode): Tree {
    match t
    case Leaf => Node(n, key, [p], Leaf, Leaf)
    case Node(id, k, procs, l, r) =>
      if key < k then Node(id, k, procs, TreePut(l, key, p, n), r)
      else if key > k then Node(id, k, procs, l, TreePut(r, key, p, n))
      else Node(id, k, procs + [p], l, r)
  }

  lemma {:induction false} EndIn(t: Tree, key: int)
    requires t.Node?
    ensures End(t, key) in Ids(t)
  {
    if key < t.key && t.left.Node? {
      EndIn(t.left, key);
    } else if key > t.key && t.right.Node? {
      EndIn(t.right, key);
    }
  }

  /** Appending to the list of the node found is an insertion in the tree. */
  lemma {:induction false} PutFound(m: NodeMem, q: Queues, t: Tree, root: MapNode?, parent: MapNode?, key: int, p: Proc,
                                    n: MapNode, home: map<LinkedList, MapNode>)
    requires TreeAt(m, q, t, root, parent) && Simple(t) && Found(t, key) && Homes(home, Ids(t))
    requires End(t, key).listOfProcs in q
    ensures var l := End(t, key).listOfProcs;
            TreeAt(m, q[l := q[l] + [p]], TreePut(t, key, p, n), root, parent)
    ensures Ids(TreePut(t, key, p, n)) == Ids(t)
  {
    var l := End(t, key).listOfProcs;
    var q' := q[l := q[l] + [p]];
    EndIn(t, key);
    if key < t.key {
      PutFound(m, q, t.left, m[t.id].left, t.id, key, p, n, home);
      EndIn(t.left, key);
      TreeFrame(m, q, m, q', t.right, m[t.id].right, t.id);
    } else if key > t.key {
      PutFound(m, q, t.right, m[t.id].right, t.id, key, p, n, home);
      EndIn(t.right, key);
      TreeFrame(m, q, m, q', t.left, m[t.id].left, t.id);
    } else {
      TreeFrame(m, q, m, q', t.left, m[t.id].left, t.id);
      TreeFrame(m, q, m, q', t.right, m[t.id].right, t.id);
    }
  }

  /** The memory after node n is hung below e for key. */
  function Hang(m: NodeMem, e: MapNode, key: int, n: MapNode): NodeMem
    requires e in m
  {
    m[e := if key < m[e].key then m[e].(left := n) else m[e].(right := n)]
     [n := NodeVal(key, null, e, null, null)]
  }

  /** Hanging a new node below the end of the search is an insertion in the tree. */
  lemma {:induction false} PutMissing(m: NodeMem, q: Queues, t: Tree, root: MapNode?, parent: MapNode?, key: int, p: Proc,
                                      n: MapNode, home: map<LinkedList, MapNode>)
    requires TreeAt(m, q, t, root, parent) && Simple(t) && t.Node? && !Found(t, key)
    requires n !in Ids(t) && Homes(home, Ids(t) + {n}) && End(t, key) in m
    ensures TreeAt(Hang(m, End(t, key), key, n), q[n.listOfProcs := [p]], TreePut(t, key, p, n), root, parent)
    ensures Ids(TreePut(t, key, p, n)) == Ids(t) + {n}
  {
    var m', q' := Hang(m, End(t, key), key, n), q[n.listOfProcs := [p]];
    EndIn(t, key);
    if key < t.key {
      TreeFrame(m, q, m', q', t.right, m[t.id].right, t.id) by {
        if t.left.Node? {
          EndIn(t.left, key);
        }
      }
      if t.left.Node? {
        EndIn(t.left, key);
        PutMissing(m, q, t.left, m[t.id].left, t.id, key, p, n, home);
      }
    } else {
      TreeFrame(m, q, m', q', t.left, m[t.id].left, t.id) by {
        if t.right.Node? {
          EndIn(t.right, key);
        }
      }
      if t.right.Node? {
        EndIn(t.right, key);
        PutMissing(m, q, t.right, m[t.id].right, t.id, key, p, n, home);
      }
    }
  }

  lemma {:induction false} PutSimple(t: Tree, key: int, p: Proc, n: MapNode)
    requires Simple(t) && (Found(t, key) || n !in Ids(t))
    ensures Simple(TreePut(t, key, p, n))
    ensures Ids(TreePut(t, key, p, n)) == if Found(t, key) then Ids(t) else Ids(t) + {n}
  {
    if t.Node? {
      if key < t.key {
        PutSimple(t.left, key, p, n);
      } else if key > t.key {
        PutSimple(t.right, key, p, n);
      }
    }
  }

  // ----- buckets of a tree -----

  lemma {:induction false} RisingSplit(a: seq<Bucket>, b: seq<Bucket>)
    requires Rising(a + b)
    ensures Rising(a) && Rising(b)
    ensures forall i, j | 0 <= i < |a| && 0 <= j < |b| :: a[i].key < b[j].key
  {
    if a == [] {
      assert a + b == b;
    } else {
      assert (a + b)[1..] == a[1..] + b;
      RisingSplit(a[1..], b);
      forall j | 0 <= j < |a[1..]|
        ensures a[0].key < a[1..][j].key
      {
        assert (a[1..] + b)[j] == a[1..][j];
      }
      forall j | 0 <= j < |b|
        ensures a[0].key < b[j].key
      {
        assert (a[1..] + b)[|a| - 1 + j] == b[j];
      }
      assert forall i | 0 < i < |a| :: a[i] == a[1..][i - 1];
    }
  }

  lemma {:induction false} PutInFront(a: seq<Bucket>, b: seq<Bucket>, key: int, p: Proc)
    requires b != [] && key < b[0].key
    ensures Put(a + b, key, p) == Put(a, key, p) + b
  {
    if a == [] {
      assert a + b == b;
    } else {
      assert (a + b)[0] == a[0] && (a + b)[1..] == a[1..] + b;
      if key < a[0].key {
        assert [Bucket(key, [p])] + (a + b) == [Bucket(key, [p])] + a + b;
      } else if key == a[0].key {
        var x := [Bucket(key, a[0].procs + [p])];
        assert x + (a[1..] + b) == x + a[1..] + b;
      } else {
        PutInFront(a[1..], b, key, p);
        assert [a[0]] + (Put(a[1..], key, p) + b) == [a[0]] + Put(a[1..], key, p) + b;
      }
    }
  }

  lemma {:induction false} PutBehind(a: seq<Bucket>, b: seq<Bucket>, key: int, p: Proc)
    requires forall i | 0 <= i < |a| :: a[i].key < key
    ensures Put(a + b, key, p) == a + Put(b, key, p)
  {
    if a == [] {
      assert a + b == b;
    } else {
      assert (a + b)[1..] == a[1..] + b;
      PutBehind(a[1..], b, key, p);
    }
  }

  /** The parts of the buckets of a node, each in order. */
  lemma {:induction false} NodeParts(t: Tree)
    requires t.Node? && Rising(InOrder(t))
    ensures Rising(InOrder(t.left)) && Rising(InOrder(t.right))
    ensures forall i | 0 <= i < |InOrder(t.left)| :: InOrder(t.left)[i].key < t.key
    ensures forall i | 0 <= i < |InOrder(t.right)| :: t.key < InOrder(t.right)[i].key
  {
    var a, x, c := InOrder(t.left), [Bucket(t.key, t.procs)], InOrder(t.right);
    RisingSplit(a + x, c);
    RisingSplit(a, x);
    assert forall i | 0 <= i < |a| :: a[i].key < x[0].key;
    assert (a + x)[|a|].key == t.key;
  }

  lemma {:induction false} PutLeftPart(a: seq<Bucket>, b: Bucket, c: seq<Bucket>, key: int, p: Proc)
    requires key < b.key
    ensures Put(a + [b] + c, key, p) == Put(a, key, p) + [b] + c
  {
    assert a + [b] + c == a + ([b] + c);
    PutInFront(a, [b] + c, key, p);
    assert Put(a, key, p) + ([b] + c) == Put(a, key, p) + [b] + c;
  }

  lemma {:induction false} PutRightPart(a: seq<Bucket>, b: Bucket, c: seq<Bucket>, key: int, p: Proc)
    requires b.key < key && forall i | 0 <= i < |a| :: a[i].key < b.key
    ensures Put(a + [b] + c, key, p) == a + [b] + Put(c, key, p)
  {
    assert forall i | 0 <= i < |a + [b]| :: (a + [b])[i].key < key;
    PutBehind(a + [b], c, key, p);
  }

  lemma {:induction false} PutMiddle(a: seq<Bucket>, b: Bucket, c: seq<Bucket>, p: Proc)
    requires forall i | 0 <= i < |a| :: a[i].key < b.key
    ensures Put(a + [b] + c, b.key, p) == a + [Bucket(b.key, b.procs + [p])] + c
  {
    assert a + [b] + c == a + ([b] + c);
    PutBehind(a, [b] + c, b.key, p);
    assert ([b] + c)[1..] == c;
    var x := [Bucket(b.key, b.procs + [p])];
    assert a + (x + c) == a + x + c;
  }

  /** Insertion in the tree is put on its buckets. */
  lemma {:induction false} InOrderPut(t: Tree, key: int, p: Proc, n: MapNode)
    requires Rising(InOrder(t))
    ensures InOrder(TreePut(t, key, p, n)) == Put(InOrder(t), key, p)
  {
    match t
    case Leaf =>
    case Node(id, k, procs, l, r) =>
      NodeParts(t);
      if key < k {
        InOrderPut(l, key, p, n);
        PutLeftPart(InOrder(l), Bucket(k, procs), InOrder(r), key, p);
      } else if key > k {
        InOrderPut(r, key, p, n);
        PutRightPart(InOrder(l), Bucket(k, procs), InOrder(r), key, p);
      } else {
        PutMiddle(InOrder(l), Bucket(k, procs), InOrder(r), p);
      }
  }

  /** The search finds the key exactly if some bucket has it. */
  lemma {:induction false} FoundIsHasKey(t: Tree, key: int)
    requires Rising(InOrder(t))
    ensures Found(t, key) <==> HasKey(InOrder(t), key)
  {
    match t
    case Leaf =>
    case Node(id, k, procs, l, r) =>
      NodeParts(t);
      HasKeyParts(InOrder(l), [Bucket(k, procs)], InOrder(r), key);
      assert HasKey([Bucket(k, procs)], key) <==> key == k by {
        assert [Bucket(k, procs)][0].key == k;
      }
      FoundIsHasKey(l, key);
      FoundIsHasKey(r, key);
  }

  lemma HasKeyParts(a: seq<Bucket>, x: seq<Bucket>, c: seq<Bucket>, key: int)
    ensures HasKey(a + x + c, key) <==> HasKey(a, key) || HasKey(x, key) || HasKey(c, key)
  {
    var s := a + x + c;
    if HasKey(s, key) {
      var i :| 0 <= i < |s| && s[i].key == key;
      if i < |a| {
        assert a[i].key == key;
      } else if i < |a| + |x| {
        assert x[i - |a|].key == key;
      } else {
        assert c[i - |a| - |x|].key == key;
      }
    }
    if HasKey(a, key) {
      var i :| 0 <= i < |a| && a[i].key == key;
      assert s[i].key == key;
    }
    if HasKey(x, key) {
      var i :| 0 <= i < |x| && x[i].key == key;
      assert s[|a| + i].key == key;
    }
    if HasKey(c, key) {
      var i :| 0 <= i < |c| && c[i].key == key;
      assert s[|a| + |x| + i].key == key;
    }
  }

  lemma {:induction false} TreeSize(t: Tree)
    requires Simple(t)
    ensures |Ids(t)| == |InOrder(t)|
  {
    match t
    case Leaf =>
    case Node(id, _, _, l, r) =>
      TreeSize(l);
      TreeSize(r);
      UnionSize(id, Ids(l), Ids(r));
  }

  lemma UnionSize(id: MapNode, a: set<MapNode>, b: set<MapNode>)
    requires id !in a && id !in b && a !! b
    ensures |{id} + a + b| == 1 + |a| + |b|
  {
  }

  // ----- extractMin -----

  /** The leftmost node. */
  function Least(t: Tree): Tree
    requires t.Node?
    ensures Least(t).Node? && Least(t).left.Leaf?
  {
    if t.left.Node? then Least(t.left) else t
  }

  function TreeExtract(t: Tree): Tree
    requires t.Node? && Least(t).procs != []
  {
    if t.left.Node? then t.(left := TreeExtract(t.left))
    else if |t.procs| == 1 then t.right
    else t.(procs := t.procs[1..])
  }

  lemma {:induction false} LeastIn(t: Tree)
    requires t.Node?
    ensures Least(t).id in Ids(t)
  {
    if t.left.Node? {
      LeastIn(t.left);
    }
  }

  /** Extraction from the tree is extractMin on its buckets. */
  lemma {:induction false} InOrderExtract(t: Tree)
    requires t.Node? && Least(t).procs != []
    ensures InOrder(t) != [] && InOrder(t)[0] == Bucket(Least(t).key, Least(t).procs)
    ensures InOrder(TreeExtract(t)) == ExtractMin(InOrder(t))
  {
    var a, x, c := InOrder(t.left), [Bucket(t.key, t.procs)], InOrder(t.right);
    if t.left.Node? {
      InOrderExtract(t.left);
      ExtractFromFront(a, x);
      ExtractFromFront(a + x, c);
    } else {
      assert a + x == x;
      assert (x + c)[1..] == c;
    }
  }

  lemma ExtractFromFront(a: seq<Bucket>, b: seq<Bucket>)
    requires a != [] && a[0].procs != []
    ensures ExtractMin(a + b) == ExtractMin(a) + b
  {
  }

  lemma {:induction false} ExtractSimple(t: Tree)
    requires t.Node? && Least(t).procs != [] && Simple(t)
    ensures Simple(TreeExtract(t))
    ensures Ids(TreeExtract(t)) == if |Least(t).procs| == 1 then Ids(t) - {Least(t).id} else Ids(t)
  {
    LeastIn(t);
    if t.left.Node? {
      ExtractSimple(t.left);
      LeastIn(t.left);
    }
  }

  /** Taking one process off the list of the least node. */
  lemma {:induction false} ExtractShortens(m: NodeMem, q: Queues, t: Tree, root: MapNode?, parent: MapNode?, home: map<LinkedList, MapNode>)
    requires TreeAt(m, q, t, root, parent) && Simple(t) && t.Node? && |Least(t).procs| > 1 && Homes(home, Ids(t))
    ensures var l := Least(t).id.listOfProcs;
            l in q && TreeAt(m, q[l := Least(t).procs[1..]], TreeExtract(t), root, parent)
  {
    var l := Least(t).id.listOfProcs;
    var q' := q[l := Least(t).procs[1..]];
    LeastIn(t);
    TreeDomain(m, q, t, root, parent);
    if t.left.Node? {
      LeastIn(t.left);
      ExtractShortens(m, q, t.left, m[t.id].left, t.id, home);
    }
    TreeFrame(m, q, m, q', t.right, m[t.id].right, t.id);
  }

  /** The least node is bypassed: its right child takes its place. */
  ghost predicate Bypassed(m: NodeMem, m': NodeMem, root: MapNode, least: MapNode)
    requires least in m
  {
    var r, par := m[least].right, m[least].parent;
    && (forall n | n in m && n != least && n != r && (least == root || n != par) :: n in m' && m'[n] == m[n])
    && (r != null && r in m ==> r in m' && m'[r] == m[r].(parent := par))
    && (least != root ==> par != null && par in m && par in m' && par != r && m'[par] == m[par].(left := r))
  }

  lemma {:induction false} ReparentRoot(m: NodeMem, q: Queues, m': NodeMem, q': Queues, t: Tree, root: MapNode?, parent: MapNode?, parent': MapNode?)
    requires TreeAt(m, q, t, root, parent) && Simple(t)
    requires forall n | n in Ids(t) && n in m :: n in m' && m'[n] == if n == root then m[n].(parent := parent') else m[n]
    requires forall n | n in Ids(t) && n.listOfProcs in q :: n.listOfProcs in q' && q'[n.listOfProcs] == q[n.listOfProcs]
    ensures TreeAt(m', q', t, root, parent')
  {
    if t.Node? {
      TreeFrame(m, q, m', q', t.left, m[t.id].left, t.id);
      TreeFrame(m, q, m', q', t.right, m[t.id].right, t.id);
    }
  }

  lemma {:induction false} ExtractUnlinks(m: NodeMem, q: Queues, m': NodeMem, q': Queues, t: Tree, root: MapNode, parent: MapNode?)
    requires TreeAt(m, q, t, root, parent) && Simple(t) && t.Node? && |Least(t).procs| == 1
    requires Least(t).id in m && Bypassed(m, m', root, Least(t).id) && (parent != null ==> parent !in Ids(t))
    requires forall n | n in Ids(t) && n != Least(t).id && n.listOfProcs in q ::
               n.listOfProcs in q' && q'[n.listOfProcs] == q[n.listOfProcs]
    ensures TreeAt(m', q', TreeExtract(t), if Least(t).id == root then m[root].right else root, parent)
  {
    var least := Least(t).id;
    LeastIn(t);
    TreeDomain(m, q, t, root, parent);
    if t.left.Leaf? {
      ReparentRoot(m, q, m', q', t.right, m[t.id].right, t.id, parent);
    } else {
      LeastIn(t.left);
      LeastParent(m, q, t, root, parent);
      var l := m[t.id].left;
      LeastParent(m, q, t.left, l, t.id);
      if least == l {
        assert TreeExtract(t.left) == t.left.right && m'[t.id].left == m[l].right;
        ReparentRoot(m, q, m', q', t.left.right, m[l].right, l, t.id);
      } else {
        ExtractUnlinks(m, q, m', q', t.left, l, t.id);
      }
      TreeFrame(m, q, m', q', t.right, m[t.id].right, t.id);
    }
  }

  /** The parent and the right child of the least node are inside the tree. */
  lemma {:induction false} LeastParent(m: NodeMem, q: Queues, t: Tree, root: MapNode, parent: MapNode?)
    requires TreeAt(m, q, t, root, parent) && Simple(t) && t.Node?
    ensures Least(t).id in m
    ensures Least(t).id == root <==> t.left.Leaf?
    ensures if t.left.Leaf? then m[root].parent == parent
            else m[Least(t).id].parent != null && m[Least(t).id].parent in Ids(t) - Ids(t.right)
    ensures m[Least(t).id].right != null ==> m[Least(t).id].right in Ids(t) - {Least(t).id}
    ensures t.left.Node? && m[Least(t).id].right != null ==> m[Least(t).id].right in Ids(t.left)
  {
    if t.left.Node? {
      LeastIn(t.left);
      LeastParent(m, q, t.left, m[t.id].left, t.id);
    }
  }
}
