/** The two pools of ass1ds.cpp and the lists drawn from them: every link is on the free list or on
    exactly one list, every node is on the free list or in exactly one tree. */
module SchedPools {
  import opened SchedSpec
  import opened SchedTree

  datatype LinkVal = LinkVal(p: Proc, next: Link?)
  datatype ListVal = ListVal(first: Link?, last: Link?)

  type LinkMem = map<Link, LinkVal>

  /** The fields of all cells. */
  datatype Mem = Mem(links: LinkMem, lists: map<LinkedList, ListVal>, freeLinks: Link?)

  /** freeL: the free list.  chains: the links of each list.  owner: the list of each link, null
      for a free one. */
  datatype Shape = Shape(freeL: seq<Link>, chains: map<LinkedList, seq<Link>>, queues: Queues, owner: map<Link, LinkedList?>)

  function First(c: seq<Link>): Link? {
    if c == [] then null else c[0]
  }

  function Last(c: seq<Link>): Link? {
    if c == [] then null else c[|c| - 1]
  }

  function After(c: seq<Link>, i: nat): Link? {
    if i + 1 < |c| then c[i + 1] else null
  }

  ghost predicate Chain(m: LinkMem, first: Link?, c: seq<Link>) {
    && first == First(c)
    && forall i {:trigger m[c[i]]} {:trigger c[i] in m} | 0 <= i < |c| :: c[i] in m && m[c[i]].next == After(c, i)
  }

  /** All links of the chain have this owner. */
  ghost predicate Owned(owner: map<Link, LinkedList?>, c: seq<Link>, l: LinkedList?) {
    forall i | 0 <= i < |c| :: c[i] in owner && owner[c[i]] == l
  }

  /** The links carry these processes. */
  ghost predicate Carries(m: LinkMem, c: seq<Link>, ps: seq<Proc>) {
    |ps| == |c| && forall i {:trigger m[c[i]]} | 0 <= i < |c| :: c[i] in m && m[c[i]].p == ps[i]
  }

  ghost predicate ListOk(m: Mem, s: Shape, l: LinkedList)
    requires l in s.chains && l in s.queues
  {
    && l in m.lists && Chain(m.links, m.lists[l].first, s.chains[l]) && m.lists[l].last == Last(s.chains[l])
    && Owned(s.owner, s.chains[l], l)
    && Carries(m.links, s.chains[l], s.queues[l])
  }

  /** The link is where its owner says. */
  ghost predicate Placed(s: Shape, x: Link)
    requires x in s.owner
  {
    if s.owner[x] == null then x in s.freeL else s.owner[x] in s.chains && x in s.chains[s.owner[x]]
  }

  /** The free links and all lists partition the pool. */
  ghost predicate LinksOk(m: Mem, s: Shape) {
    && m.links.Keys == s.owner.Keys && m.lists.Keys == s.chains.Keys == s.queues.Keys
    && Chain(m.links, m.freeLinks, s.freeL) && Owned(s.owner, s.freeL, null)
    && (forall l {:trigger ListOk(m, s, l)} | l in s.chains :: ListOk(m, s, l))
    && (forall x {:trigger Placed(s, x)} | x in s.owner :: Placed(s, x))
  }

  // ----- chains -----

  /** A chain that ends does not visit a link twice. */
  lemma {:induction false} ChainSimple(m: LinkMem, first: Link?, c: seq<Link>, i: nat, j: nat)
    requires Chain(m, first, c) && i < j < |c|
    ensures c[i] != c[j]
    decreases |c| - j
  {
    assert m[c[i]].next == After(c, i) && m[c[j]].next == After(c, j);
    if c[i] == c[j] && j + 1 < |c| {
      ChainSimple(m, first, c, i + 1, j + 1);
    }
  }

  lemma ChainApart(m: LinkMem, first: Link?, c: seq<Link>, k: nat)
    requires Chain(m, first, c) && k < |c|
    ensures forall i | 0 <= i < |c| && i != k :: c[i] != c[k]
  {
    forall i | 0 <= i < |c| && i != k
      ensures c[i] != c[k]
    {
      if i < k {
        ChainSimple(m, first, c, i, k);
      } else {
        ChainSimple(m, first, c, k, i);
      }
    }
  }

  lemma FreeFrame(m: LinkMem, m': LinkMem, first: Link?, c: seq<Link>)
    requires Chain(m, first, c)
    requires forall i | 0 <= i < |c| && c[i] in m :: c[i] in m' && m'[c[i]] == m[c[i]]
    ensures Chain(m', first, c)
  {
  }

  lemma ChainTail(m: LinkMem, first: Link?, c: seq<Link>)
    requires Chain(m, first, c) && c != []
    ensures Chain(m, m[c[0]].next, c[1..])
  {
  }

  /** Pushing a link in front of a chain. */
  lemma ChainPush(m: LinkMem, m': LinkMem, first: Link?, c: seq<Link>, x: Link, p: Proc)
    requires Chain(m, first, c) && x !in c && m' == m[x := LinkVal(p, first)]
    ensures Chain(m', x, [x] + c)
  {
  }

  /** What appending link x to a list does to the links. */
  function Linked(m: LinkMem, c: seq<Link>, x: Link, p: Proc): LinkMem
    requires c != [] ==> c[|c| - 1] in m
  {
    var m1 := m[x := LinkVal(p, null)];
    if c == [] then m1 else m1[c[|c| - 1] := m[c[|c| - 1]].(next := x)]
  }

  lemma ChainAppend(m: LinkMem, first: Link?, c: seq<Link>, ps: seq<Proc>, x: Link, p: Proc)
    requires Chain(m, first, c) && Carries(m, c, ps) && x !in c
    requires c != [] ==> c[|c| - 1] in m
    ensures Chain(Linked(m, c, x, p), First(c + [x]), c + [x]) && Carries(Linked(m, c, x, p), c + [x], ps + [p])
  {
  }

  // ----- operations on lists -----

  /** A list that the operation does not touch. */
  lemma OtherListOk(m: Mem, s: Shape, m': Mem, s': Shape, l: LinkedList)
    requires l in s.chains && l in s.queues && ListOk(m, s, l)
    requires l in s'.chains && s'.chains[l] == s.chains[l] && l in s'.queues && s'.queues[l] == s.queues[l]
    requires l in m'.lists && l in m.lists && m'.lists[l] == m.lists[l]
    requires forall x | x in s.owner && s.owner[x] == l :: x in s'.owner && s'.owner[x] == l
    requires forall x | x in s.owner && s.owner[x] == l && x in m.links :: x in m'.links && m'.links[x] == m.links[x]
    ensures ListOk(m', s', l)
  {
  }

  function EnqueueMem(m: Mem, s: Shape, l: LinkedList, p: Proc): Mem
    requires l in s.chains && s.freeL != [] && s.freeL[0] in m.links
    requires s.chains[l] != [] ==> s.chains[l][|s.chains[l]| - 1] in m.links
  {
    var x := s.freeL[0];
    Mem(Linked(m.links, s.chains[l], x, p), m.lists[l := ListVal(First(s.chains[l] + [x]), x)], m.links[x].next)
  }

  function EnqueueShape(s: Shape, l: LinkedList, p: Proc): Shape
    requires l in s.chains && l in s.queues && s.freeL != []
  {
    var x := s.freeL[0];
    Shape(s.freeL[1..], s.chains[l := s.chains[l] + [x]], s.queues[l := s.queues[l] + [p]], s.owner[x := l])
  }

  /** Facts about the ends of a list that the code reads. */
  lemma ListEnds(m: Mem, s: Shape, l: LinkedList)
    requires LinksOk(m, s) && l in s.chains
    ensures l in s.queues && l in m.lists && |s.chains[l]| == |s.queues[l]|
    ensures m.lists[l] == ListVal(First(s.chains[l]), Last(s.chains[l]))
    ensures s.chains[l] != [] ==>
              var c := s.chains[l];
              && c[0] in m.links && m.links[c[0]].p == s.queues[l][0] && m.links[c[0]].next == After(c, 0)
              && c[|c| - 1] in m.links
    ensures m.freeLinks == First(s.freeL) && (s.freeL != [] ==> s.freeL[0] in m.links)
  {
    assert ListOk(m, s, l);
    var c := s.chains[l];
    if c != [] {
      assert m.links[c[0]].next == After(c, 0) && m.links[c[|c| - 1]].next == After(c, |c| - 1);
    }
  }

  lemma EnqueueFree(m: Mem, s: Shape, l: LinkedList, p: Proc)
    requires LinksOk(m, s) && l in s.chains && s.freeL != []
    requires s.freeL[0] in m.links && (s.chains[l] != [] ==> s.chains[l][|s.chains[l]| - 1] in m.links)
    ensures var m', s' := EnqueueMem(m, s, l, p), EnqueueShape(s, l, p);
            Chain(m'.links, m'.freeLinks, s'.freeL) && Owned(s'.owner, s'.freeL, null)
  {
    var m', s' := EnqueueMem(m, s, l, p), EnqueueShape(s, l, p);
    assert ListOk(m, s, l);
    ChainApart(m.links, m.freeLinks, s.freeL, 0);
    ChainTail(m.links, m.freeLinks, s.freeL);
    assert forall i | 0 <= i < |s'.freeL| :: s'.freeL[i] == s.freeL[i + 1];
    FreeFrame(m.links, m'.links, m'.freeLinks, s'.freeL);
  }

  lemma EnqueuePlaced(m: Mem, s: Shape, l: LinkedList, p: Proc, x: Link)
    requires LinksOk(m, s) && l in s.chains && s.freeL != [] && x in EnqueueShape(s, l, p).owner
    ensures Placed(EnqueueShape(s, l, p), x)
  {
    var s', y := EnqueueShape(s, l, p), s.freeL[0];
    if x == y {
      assert s'.chains[l][|s.chains[l]|] == x;
    } else {
      assert Placed(s, x);
      if s.owner[x] == null {
        var i :| 0 <= i < |s.freeL| && s.freeL[i] == x;
        assert s'.freeL[i - 1] == x;
      } else if s.owner[x] == l {
        var i :| 0 <= i < |s.chains[l]| && s.chains[l][i] == x;
        assert s'.chains[l][i] == x;
      }
    }
  }

  lemma EnqueueHere(m: Mem, s: Shape, l: LinkedList, p: Proc)
    requires LinksOk(m, s) && l in s.chains && s.freeL != []
    requires s.freeL[0] in m.links && (s.chains[l] != [] ==> s.chains[l][|s.chains[l]| - 1] in m.links)
    ensures ListOk(EnqueueMem(m, s, l, p), EnqueueShape(s, l, p), l)
  {
    var x := s.freeL[0];
    assert ListOk(m, s, l) && s.owner[x] == null;
    ChainAppend(m.links, m.lists[l].first, s.chains[l], s.queues[l], x, p);
  }

  lemma EnqueueElsewhere(m: Mem, s: Shape, l: LinkedList, p: Proc, k: LinkedList)
    requires LinksOk(m, s) && l in s.chains && s.freeL != [] && k in s.chains && k != l
    requires s.freeL[0] in m.links && (s.chains[l] != [] ==> s.chains[l][|s.chains[l]| - 1] in m.links)
    ensures ListOk(EnqueueMem(m, s, l, p), EnqueueShape(s, l, p), k)
  {
    assert ListOk(m, s, l) && ListOk(m, s, k) && s.owner[s.freeL[0]] == null;
    OtherListOk(m, s, EnqueueMem(m, s, l, p), EnqueueShape(s, l, p), k);
  }

  /** enqueue keeps the partition. */
  lemma EnqueueOk(m: Mem, s: Shape, l: LinkedList, p: Proc)
    requires LinksOk(m, s) && l in s.chains && s.freeL != []
    ensures s.freeL[0] in m.links && (s.chains[l] != [] ==> s.chains[l][|s.chains[l]| - 1] in m.links)
    ensures LinksOk(EnqueueMem(m, s, l, p), EnqueueShape(s, l, p))
  {
    ListEnds(m, s, l);
    var m', s' := EnqueueMem(m, s, l, p), EnqueueShape(s, l, p);
    EnqueueFree(m, s, l, p);
    EnqueueHere(m, s, l, p);
    hide ListOk;
    hide Placed;
    hide Chain;
    hide Owned;
    forall k | k in s'.chains
      ensures ListOk(m', s', k)
    {
      if k != l {
        EnqueueElsewhere(m, s, l, p, k);
      }
    }
    forall y | y in s'.owner
      ensures Placed(s', y)
    {
      EnqueuePlaced(m, s, l, p, y);
    }
  }

  // ----- dequeue and remove -----

  function Drop<T>(c: seq<T>, k: nat): seq<T>
    requires k < |c|
  {
    c[..k] + c[k + 1..]
  }

  /** The links after link k of the chain is taken out and pushed on the free list. */
  function Unlinked(m: LinkMem, c: seq<Link>, k: nat, free: Link?): LinkMem
    requires k < |c| && c[k] in m && (k > 0 ==> c[k - 1] in m)
  {
    var m1 := if k > 0 then m[c[k - 1] := m[c[k - 1]].(next := m[c[k]].next)] else m;
    m1[c[k] := LinkVal(m[c[k]].p, free)]
  }

  function RemoveMem(m: Mem, s: Shape, l: LinkedList, k: nat): Mem
    requires l in s.chains && k < |s.chains[l]| && s.chains[l][k] in m.links
    requires k > 0 ==> s.chains[l][k - 1] in m.links
  {
    var c := s.chains[l];
    Mem(Unlinked(m.links, c, k, m.freeLinks), m.lists[l := ListVal(First(Drop(c, k)), Last(Drop(c, k)))], c[k])
  }

  function RemoveShape(s: Shape, l: LinkedList, k: nat): Shape
    requires l in s.chains && l in s.queues && k < |s.chains[l]| && k < |s.queues[l]|
  {
    var c := s.chains[l];
    Shape([c[k]] + s.freeL, s.chains[l := Drop(c, k)], s.queues[l := Drop(s.queues[l], k)], s.owner[c[k] := null])
  }

  lemma ChainDrop(m: LinkMem, first: Link?, c: seq<Link>, ps: seq<Proc>, k: nat, free: Link?)
    requires Chain(m, first, c) && Carries(m, c, ps) && k < |c| && c[k] in m && (k > 0 ==> c[k - 1] in m)
    ensures Chain(Unlinked(m, c, k, free), First(Drop(c, k)), Drop(c, k))
    ensures Carries(Unlinked(m, c, k, free), Drop(c, k), Drop(ps, k))
  {
    var m', c', ps' := Unlinked(m, c, k, free), Drop(c, k), Drop(ps, k);
    ChainApart(m, first, c, k);
    if k > 0 {
      ChainApart(m, first, c, k - 1);
    }
    assert m[c[k]].next == After(c, k);
    forall i | 0 <= i < |c'|
      ensures c'[i] in m' && m'[c'[i]].next == After(c', i) && m'[c'[i]].p == ps'[i]
    {
      var o := if i < k then i else i + 1;
      assert c'[i] == c[o] && ps'[i] == ps[o] && m[c[o]].next == After(c, o);
    }
  }

  lemma RemoveFree(m: Mem, s: Shape, l: LinkedList, k: nat)
    requires LinksOk(m, s) && l in s.chains && k < |s.chains[l]| && k < |s.queues[l]|
    requires s.chains[l][k] in m.links && (k > 0 ==> s.chains[l][k - 1] in m.links)
    ensures var m', s' := RemoveMem(m, s, l, k), RemoveShape(s, l, k);
            Chain(m'.links, m'.freeLinks, s'.freeL) && Owned(s'.owner, s'.freeL, null)
  {
    var c := s.chains[l];
    var m1 := if k > 0 then m.links[c[k - 1] := m.links[c[k - 1]].(next := m.links[c[k]].next)] else m.links;
    assert ListOk(m, s, l);
    assert s.owner[c[k]] == l && (k > 0 ==> s.owner[c[k - 1]] == l);
    FreeFrame(m.links, m1, m.freeLinks, s.freeL);
    ChainPush(m1, RemoveMem(m, s, l, k).links, m.freeLinks, s.freeL, c[k], m.links[c[k]].p);
  }

  lemma RemoveElsewhere(m: Mem, s: Shape, l: LinkedList, k: nat, o: LinkedList)
    requires LinksOk(m, s) && l in s.chains && k < |s.chains[l]| && k < |s.queues[l]| && o in s.chains && o != l
    requires s.chains[l][k] in m.links && (k > 0 ==> s.chains[l][k - 1] in m.links)
    ensures ListOk(RemoveMem(m, s, l, k), RemoveShape(s, l, k), o)
  {
    assert ListOk(m, s, l) && ListOk(m, s, o);
    assert s.owner[s.chains[l][k]] == l && (k > 0 ==> s.owner[s.chains[l][k - 1]] == l);
    OtherListOk(m, s, RemoveMem(m, s, l, k), RemoveShape(s, l, k), o);
  }

  lemma RemoveHere(m: Mem, s: Shape, l: LinkedList, k: nat)
    requires LinksOk(m, s) && l in s.chains && k < |s.chains[l]| && k < |s.queues[l]|
    requires s.chains[l][k] in m.links && (k > 0 ==> s.chains[l][k - 1] in m.links)
    ensures ListOk(RemoveMem(m, s, l, k), RemoveShape(s, l, k), l)
  {
    var c := s.chains[l];
    assert ListOk(m, s, l);
    ChainDrop(m.links, m.lists[l].first, c, s.queues[l], k, m.freeLinks);
    ChainApart(m.links, m.lists[l].first, c, k);
    forall i | 0 <= i < |Drop(c, k)|
      ensures Drop(c, k)[i] in RemoveShape(s, l, k).owner && RemoveShape(s, l, k).owner[Drop(c, k)[i]] == l
    {
      assert Drop(c, k)[i] == c[if i < k then i else i + 1];
    }
  }

  lemma RemovePlaced(m: Mem, s: Shape, l: LinkedList, k: nat, x: Link)
    requires LinksOk(m, s) && l in s.chains && k < |s.chains[l]| && k < |s.queues[l]| && x in s.owner
    ensures Placed(RemoveShape(s, l, k), x)
  {
    var s', c := RemoveShape(s, l, k), s.chains[l];
    if x == c[k] {
      assert s'.freeL[0] == x;
    } else {
      assert Placed(s, x);
      if s.owner[x] == null {
        var i :| 0 <= i < |s.freeL| && s.freeL[i] == x;
        assert s'.freeL[i + 1] == x;
      } else if s.owner[x] == l {
        var i :| 0 <= i < |c| && c[i] == x;
        assert s'.chains[l][if i < k then i else i - 1] == x;
      }
    }
  }

  /** dequeue (k == 0) and remove keep the partition. */
  lemma RemoveOk(m: Mem, s: Shape, l: LinkedList, k: nat)
    requires LinksOk(m, s) && l in s.chains && k < |s.chains[l]|
    ensures l in s.queues && k < |s.queues[l]| && s.chains[l][k] in m.links && (k > 0 ==> s.chains[l][k - 1] in m.links)
    ensures LinksOk(RemoveMem(m, s, l, k), RemoveShape(s, l, k))
  {
    assert ListOk(m, s, l);
    var m', s' := RemoveMem(m, s, l, k), RemoveShape(s, l, k);
    assert s.chains[l][k] in s.owner;
    RemoveFree(m, s, l, k);
    RemoveHere(m, s, l, k);
    forall o | o in s'.chains
      ensures ListOk(m', s', o)
    {
      if o != l {
        RemoveElsewhere(m, s, l, k, o);
      }
    }
    forall x | x in s'.owner
      ensures Placed(s', x)
    {
      RemovePlaced(m, s, l, k, x);
    }
  }

  // ----- moving a whole list -----

  function MoveMem(m: Mem, a: LinkedList, b: LinkedList): Mem
    requires a in m.lists
  {
    m.(lists := m.lists[b := m.lists[a]][a := ListVal(null, null)])
  }

  /** The links of chain c now belong to l. */
  function Reowned(owner: map<Link, LinkedList?>, c: seq<Link>, l: LinkedList): (r: map<Link, LinkedList?>)
    requires forall i | 0 <= i < |c| :: c[i] in owner
    ensures r.Keys == owner.Keys
    ensures forall x {:trigger r[x]} | x in r :: r[x] == if x in c then l else owner[x]
  {
    if c == [] then owner else Reowned(owner[c[0] := l], c[1..], l)
  }

  function MoveShape(s: Shape, a: LinkedList, b: LinkedList): Shape
    requires a in s.chains && a in s.queues && Owned(s.owner, s.chains[a], a)
  {
    Shape(s.freeL, s.chains[b := s.chains[a]][a := []], s.queues[b := s.queues[a]][a := []],
          Reowned(s.owner, s.chains[a], b))
  }

  lemma MoveList(m: Mem, s: Shape, a: LinkedList, b: LinkedList, k: LinkedList)
    requires LinksOk(m, s) && a in s.chains && b in s.chains && a != b && s.chains[b] == [] && k in s.chains
    requires a in m.lists && a in s.queues && Owned(s.owner, s.chains[a], a)
    ensures ListOk(MoveMem(m, a, b), MoveShape(s, a, b), k)
  {
    assert ListOk(m, s, a) && ListOk(m, s, b) && ListOk(m, s, k);
  }

  /** The places of all links, before and after list a moves to b. */
  lemma MovePlaced(s: Shape, a: LinkedList, b: LinkedList)
    requires a in s.chains && a in s.queues && Owned(s.owner, s.chains[a], a) && Owned(s.owner, s.freeL, null)
    requires forall x {:trigger Placed(s, x)} | x in s.owner :: Placed(s, x)
    requires b in s.chains && a != b && s.chains[b] == []
    ensures Owned(MoveShape(s, a, b).owner, s.freeL, null)
    ensures var s' := MoveShape(s, a, b); forall x {:trigger Placed(s', x)} | x in s'.owner :: Placed(s', x)
  {
    var s' := MoveShape(s, a, b);
    forall x | x in s'.owner
      ensures Placed(s', x)
    {
      assert Placed(s, x);
    }
  }

  lemma MoveLists(m: Mem, s: Shape, a: LinkedList, b: LinkedList)
    requires LinksOk(m, s) && a in s.chains && b in s.chains && a != b && s.chains[b] == []
    requires a in m.lists && b in m.lists && s.chains.Keys == s.queues.Keys && Owned(s.owner, s.chains[a], a)
    ensures var m', s' := MoveMem(m, a, b), MoveShape(s, a, b);
            && m'.lists.Keys == m.lists.Keys && s'.chains.Keys == s.chains.Keys && s'.queues.Keys == s.queues.Keys
            && forall k {:trigger ListOk(m', s', k)} | k in s'.chains :: ListOk(m', s', k)
  {
    hide LinksOk;
    hide ListOk;
    var m', s' := MoveMem(m, a, b), MoveShape(s, a, b);
    forall k | k in s'.chains
      ensures ListOk(m', s', k)
    {
      MoveList(m, s, a, b, k);
    }
  }

  /** Handing the links of list a to the empty list b keeps the partition. */
  lemma MoveOk(m: Mem, s: Shape, a: LinkedList, b: LinkedList)
    requires LinksOk(m, s) && a in s.chains && b in s.chains && a != b && s.chains[b] == []
    ensures a in m.lists && a in s.queues && Owned(s.owner, s.chains[a], a) && LinksOk(MoveMem(m, a, b), MoveShape(s, a, b))
  {
    assert ListOk(m, s, a);
    MovePlaced(s, a, b);
    MoveLists(m, s, a, b);
  }

  // ----- building the pools -----

  /** A new link enters the pool as the first free one. */
  lemma AddLinkOk(m: Mem, s: Shape, x: Link, p: Proc)
    requires LinksOk(m, s) && x !in m.links
    ensures LinksOk(m.(links := m.links[x := LinkVal(p, m.freeLinks)], freeLinks := x),
                    s.(freeL := [x] + s.freeL, owner := s.owner[x := null]))
  {
    var m', s' := m.(links := m.links[x := LinkVal(p, m.freeLinks)], freeLinks := x), s.(freeL := [x] + s.freeL, owner := s.owner[x := null]);
    ChainPush(m.links, m'.links, m.freeLinks, s.freeL, x, p);
    forall l | l in s'.chains
      ensures ListOk(m', s', l)
    {
      assert ListOk(m, s, l);
      OtherListOk(m, s, m', s', l);
    }
    hide ListOk;
    hide Chain;
    forall y | y in s'.owner
      ensures Placed(s', y)
    {
      AddedPlaced(s, s', x, y);
    }
  }

  lemma AddedPlaced(s: Shape, s': Shape, x: Link, y: Link)
    requires s' == s.(freeL := [x] + s.freeL, owner := s.owner[x := null]) && y in s'.owner && (y in s.owner ==> Placed(s, y))
    ensures Placed(s', y)
  {
    if y == x {
      assert s'.freeL[0] == x;
    } else if s.owner[y] == null {
      var i :| 0 <= i < |s.freeL| && s.freeL[i] == y;
      assert s'.freeL[i + 1] == y;
    }
  }

  function WithList(m: Mem, l: LinkedList): Mem {
    m.(lists := m.lists[l := ListVal(null, null)])
  }

  function WithQueue(s: Shape, l: LinkedList): Shape {
    s.(chains := s.chains[l := []], queues := s.queues[l := []])
  }

  lemma AddListOther(m: Mem, s: Shape, l: LinkedList, k: LinkedList)
    requires LinksOk(m, s) && l !in m.lists && k in s.chains && k != l
    ensures ListOk(WithList(m, l), WithQueue(s, l), k)
  {
    assert ListOk(m, s, k);
    OtherListOk(m, s, WithList(m, l), WithQueue(s, l), k);
  }

  lemma AddListPlaced(m: Mem, s: Shape, l: LinkedList, x: Link)
    requires LinksOk(m, s) && l !in m.lists && x in s.owner
    ensures Placed(WithQueue(s, l), x)
  {
    assert Placed(s, x);
  }

  /** A new list starts empty. */
  lemma AddListOk(m: Mem, s: Shape, l: LinkedList)
    requires LinksOk(m, s) && l !in m.lists
    ensures LinksOk(WithList(m, l), WithQueue(s, l))
  {
    var m', s' := WithList(m, l), WithQueue(s, l);
    assert m'.lists.Keys == m.lists.Keys + {l} && s'.chains.Keys == s.chains.Keys + {l} && s'.queues.Keys == s.queues.Keys + {l};
    assert ListOk(m', s', l);
    forall k | k in s'.chains
      ensures ListOk(m', s', k)
    {
      if k != l {
        AddListOther(m, s, l, k);
      }
    }
    forall x | x in s'.owner
      ensures Placed(s', x)
    {
      AddListPlaced(m, s, l, x);
    }
  }
}
