/** LinkedList and the pool of links of ass1ds.cpp as code. */
module SchedQueues {
  import opened SchedSpec
  import opened SchedTree
  import opened SchedPools

  datatype Option<T> = None | Some(value: T)

  /** m holds the fields of these links. */
  ghost predicate LinksAre(links: set<Link>, m: LinkMem)
    reads links
  {
    m.Keys == links && forall x {:trigger m[x]} | x in links :: m[x] == LinkVal(x.p, x.next)
  }

  /** m holds the fields of these lists. */
  ghost predicate ListsAre(lists: set<LinkedList>, m: map<LinkedList, ListVal>)
    reads lists
  {
    m.Keys == lists && forall l {:trigger m[l]} | l in lists :: m[l] == ListVal(l.first, l.last)
  }

  class QueuePool {
    /** The head of the free list. */
    var freeLinks: Link?
    ghost var links: set<Link>
    ghost var lists: set<LinkedList>
    ghost var shape: Shape
    /** The fields of the cells, as a value. */
    ghost var mem: Mem

    ghost predicate Valid()
      reads this, links, lists
      ensures Valid() ==> lists == shape.chains.Keys && lists == shape.queues.Keys
    {
      LinksAre(links, mem.links) && ListsAre(lists, mem.lists) && freeLinks == mem.freeLinks && LinksOk(mem, shape)
    }

    /** The cells have taken these values. */
    ghost method Record(m: Mem, s: Shape)
      requires LinksAre(links, m.links) && ListsAre(lists, m.lists) && freeLinks == m.freeLinks && LinksOk(m, s)
      modifies this`mem, this`shape
      ensures Valid() && mem == m && shape == s
    {
      mem, shape := m, s;
    }

    /** The processes on a list, in order. */
    ghost function Queue(l: LinkedList): (q: seq<Proc>)
      reads this, links, lists
      requires Valid() && l in lists
    {
      shape.queues[l]
    }

    constructor ()
      ensures Valid() && links == {} && lists == {} && shape == Shape([], map[], map[], map[])
    {
      freeLinks := null;
      links, lists := {}, {};
      shape, mem := Shape([], map[], map[], map[]), Mem(map[], map[], null);
    }

    /** One turn of initSchedDS's loop over the links. */
    method AddLink()
      requires Valid()
      modifies this
      ensures Valid() && lists == old(lists) && shape.chains == old(shape.chains) && shape.queues == old(shape.queues)
      ensures |shape.freeL| == |old(shape.freeL)| + 1 && fresh(links - old(links)) && |links| == |old(links)| + 1
    {
      hide LinksOk;
      var link := new Link();
      Admit(link);
    }

    method Admit(link: Link)
      requires Valid() && link !in links
      modifies this`freeLinks, this`links, this`mem, this`shape, link`next
      ensures Valid() && links == old(links) + {link}
      ensures shape == old(shape).(freeL := [link] + old(shape.freeL), owner := old(shape.owner)[link := null])
    {
      hide LinksOk;
      ghost var m, s := mem, shape;
      AddLinkOk(m, s, link, link.p);
      link.next := freeLinks;
      freeLinks := link;
      links := links + {link};
      Record(m.(links := m.links[link := LinkVal(link.p, m.freeLinks)], freeLinks := link),
             s.(freeL := [link] + s.freeL, owner := s.owner[link := null]));
    }

    /** A list that has just been created joins the lists that draw from this pool. */
    method AddList(l: LinkedList)
      requires Valid() && l !in lists && l.first == null && l.last == null
      modifies this`lists, this`mem, this`shape
      ensures Valid() && lists == old(lists) + {l}
      ensures shape == WithQueue(old(shape), l)
    {
      hide LinksOk;
      AddListOk(mem, shape, l);
      lists := lists + {l};
      Record(WithList(mem, l), WithQueue(shape, l));
    }

    /** Hands the links of list a to the empty list b, as LinkedList::transfer does. */
    method MoveAll(a: LinkedList, b: LinkedList)
      requires Valid() && a in lists && b in lists && a != b && Queue(b) == []
      modifies this`shape, this`mem, a`first, a`last, b`first, b`last
      ensures Owned(old(shape).owner, old(shape).chains[a], a)
      ensures Valid() && shape == MoveShape(old(shape), a, b)
    {
      hide LinksOk;
      ghost var m, s := mem, shape;
      ListEnds(m, s, b);
      MoveOk(m, s, a, b);
      Rehang(a, b);
      Record(MoveMem(m, a, b), MoveShape(s, a, b));
    }

    method Rehang(a: LinkedList, b: LinkedList)
      requires a in lists && b in lists && a != b && ListsAre(lists, mem.lists)
      modifies a`first, a`last, b`first, b`last
      ensures ListsAre(lists, mem.lists[b := mem.lists[a]][a := ListVal(null, null)])
    {
      b.first := a.first;
      b.last := a.last;
      a.first, a.last := null, null;
    }

    /** Takes the first free link, makes it carry p and appends it to l, whose links are c. */
    method TakeAndAppend(l: LinkedList, p: Proc, ghost c: seq<Link>)
      requires LinksAre(links, mem.links) && ListsAre(lists, mem.lists)
      requires l in lists && freeLinks != null && freeLinks in links && freeLinks !in c
      requires l.first == First(c) && l.last == Last(c) && (c != [] ==> c[|c| - 1] in links)
      modifies this`freeLinks, links`p, links`next, l`first, l`last
      ensures var x := old(freeLinks);
              && LinksAre(links, Linked(mem.links, c, x, p))
              && ListsAre(lists, mem.lists[l := ListVal(First(c + [x]), x)])
              && freeLinks == old(x.next)
    {
      // allocLink
      var link := freeLinks;
      freeLinks := link.next;
      link.next := null;
      link.p := p;
      // append
      if l.first == null {
        l.first := link;
      } else {
        l.last.next := link;
      }
      l.last := link;
    }

    /** LinkedList::enqueue */
    method Enqueue(l: LinkedList, p: Proc) returns (ok: bool)
      requires Valid() && l in lists
      modifies this`freeLinks, this`shape, this`mem, links`p, links`next, l`first, l`last
      ensures Valid()
      ensures ok <==> old(shape.freeL) != []
      ensures shape == if ok then EnqueueShape(old(shape), l, p) else old(shape)
    {
      hide LinksOk;
      ghost var m, s := mem, shape;
      ListEnds(m, s, l);
      if freeLinks == null {
        return false;
      }
      EnqueueOk(m, s, l, p);
      FreeNotListed(m, s, l);
      TakeAndAppend(l, p, s.chains[l]);
      Record(EnqueueMem(m, s, l, p), EnqueueShape(s, l, p));
      ok := true;
    }

    /** Takes the first link, x, off list l and pushes it on the free list. */
    method TakeFirst(l: LinkedList, ghost c: seq<Link>) returns (p: Proc)
      requires LinksAre(links, mem.links) && ListsAre(lists, mem.lists)
      requires l in lists && c != [] && l.first == c[0] && l.last == Last(c) && c[0] in links && c[0].next == After(c, 0)
      modifies this`freeLinks, links`next, l`first, l`last
      ensures p == old(c[0].p)
      ensures LinksAre(links, Unlinked(mem.links, c, 0, old(freeLinks)))
      ensures ListsAre(lists, mem.lists[l := ListVal(First(Drop(c, 0)), Last(Drop(c, 0)))])
      ensures freeLinks == c[0]
    {
      assert Drop(c, 0) == c[1..];
      var first := l.first;
      p := first.p;
      var next := first.next;
      first.next := freeLinks;
      freeLinks := first;
      l.first := next;
      if next == null {
        l.last := null;
      }
    }

    /** LinkedList::dequeue */
    method Dequeue(l: LinkedList) returns (p: Option<Proc>)
      requires Valid() && l in lists
      modifies this`freeLinks, this`shape, this`mem, links`next, l`first, l`last
      ensures Valid()
      ensures p == if old(Queue(l)) == [] then None else Some(old(Queue(l))[0])
      ensures old(Queue(l)) == [] ==> shape == old(shape)
      ensures old(Queue(l)) != [] ==> |old(shape).chains[l]| > 0 && shape == RemoveShape(old(shape), l, 0)
    {
      hide LinksOk;
      ghost var m, s := mem, shape;
      ListEnds(m, s, l);
      if l.first == null {
        return None;
      }
      RemoveOk(m, s, l, 0);
      var head := TakeFirst(l, s.chains[l]);
      Record(RemoveMem(m, s, l, 0), RemoveShape(s, l, 0));
      p := Some(head);
    }

    /** Takes link cur, which follows prev on list l, out of the list and pushes it on the free list. */
    method TakeAfter(l: LinkedList, prev: Link, cur: Link, ghost c: seq<Link>, ghost k: nat)
      requires LinksAre(links, mem.links) && ListsAre(lists, mem.lists)
      requires l in lists && 0 < k < |c| && c[k - 1] == prev && c[k] == cur && prev != cur && prev in links && cur in links
      requires l.first == First(c) && l.last == Last(c) && cur.next == After(c, k)
      modifies this`freeLinks, links`next, l`last
      ensures LinksAre(links, Unlinked(mem.links, c, k, old(freeLinks)))
      ensures ListsAre(lists, mem.lists[l := ListVal(First(Drop(c, k)), Last(Drop(c, k)))])
      ensures freeLinks == c[k]
    {
      assert First(Drop(c, k)) == First(c);
      assert Last(Drop(c, k)) == if cur.next == null then prev else Last(c);
      prev.next := cur.next;
      if cur.next == null {
        l.last := prev;
      }
      cur.next := freeLinks;
      freeLinks := cur;
    }

    /** The search of LinkedList::remove, past the first link; cur is null if p is not there. */
    method FindAfterFirst(l: LinkedList, p: Proc) returns (prev: Link, cur: Link?, ghost k: nat)
      requires Valid() && l in lists && Queue(l) != [] && Queue(l)[0] != p
      ensures 0 < k <= |Queue(l)| == |shape.chains[l]| && p !in Queue(l)[..k]
      ensures prev == shape.chains[l][k - 1]
      ensures if k < |Queue(l)| then cur == shape.chains[l][k] && Queue(l)[k] == p else cur == null
    {
      hide LinksOk;
      ghost var m, s := mem, shape;
      ghost var c, q := s.chains[l], s.queues[l];
      ListEnds(m, s, l);
      prev, cur, k := l.first, l.first.next, 1;
      while cur != null
        invariant 0 < k <= |c| && prev == c[k - 1] && cur == (if k < |c| then c[k] else null) && p !in q[..k]
        decreases |c| - k
      {
        CellAt(m, s, l, k);
        assert m.links[cur] == LinkVal(cur.p, cur.next);
        if cur.p == p {
          return;
        }
        prev, cur, k := cur, cur.next, k + 1;
      }
    }

    /** LinkedList::remove */
    method Remove(l: LinkedList, p: Proc) returns (found: bool, ghost k: nat)
      requires Valid() && l in lists
      modifies this`freeLinks, this`shape, this`mem, links`next, l`first, l`last
      ensures Valid()
      ensures found <==> p in old(Queue(l))
      ensures !found ==> shape == old(shape)
      ensures found ==> k < |old(shape).chains[l]| && k < |old(Queue(l))| && shape == RemoveShape(old(shape), l, k)
      ensures found ==> old(Queue(l))[k] == p && p !in old(Queue(l))[..k]
    {
      hide LinksOk;
      ghost var m, s := mem, shape;
      ListEnds(m, s, l);
      k := 0;
      if l.first == null {
        return false, 0;
      }
      if l.first.p == p {
        var first := Dequeue(l);
        return true, 0;
      }
      var prev, cur;
      prev, cur, k := FindAfterFirst(l, p);
      if cur == null {
        return false, k;
      }
      CellAt(m, s, l, k);
      RemoveOk(m, s, l, k);
      assert m.links[cur] == LinkVal(cur.p, cur.next);
      TakeAfter(l, prev, cur, s.chains[l], k);
      Record(RemoveMem(m, s, l, k), RemoveShape(s, l, k));
      found := true;
    }

    /** LinkedList::getMinKey, with forEach written out as the loop it is. */
    method GetMinKey(l: LinkedList, acc: Proc -> int) returns (key: Option<int>)
      requires Valid() && l in lists
      ensures key == None <==> Queue(l) == []
      ensures key.Some? ==>
                && (exists i | 0 <= i < |Queue(l)| :: acc(Queue(l)[i]) == key.value)
                && (forall i | 0 <= i < |Queue(l)| :: key.value <= acc(Queue(l)[i]))
    {
      hide LinksOk;
      ghost var m, s := mem, shape;
      ghost var c, q := s.chains[l], s.queues[l];
      ListEnds(m, s, l);
      if l.first == null {
        return None;
      }
      var minKey := acc(l.first.p);
      var link := l.first;
      ghost var k := 0;
      while link != null
        invariant 0 <= k <= |c| && link == (if k < |c| then c[k] else null) && |q| == |c|
        invariant exists i | 0 <= i < |q| :: acc(q[i]) == minKey
        invariant forall i | 0 <= i < k :: minKey <= acc(q[i])
        decreases |c| - k
      {
        CellAt(m, s, l, k);
        assert m.links[link] == LinkVal(link.p, link.next);
        var key := acc(link.p);
        if key < minKey {
          minKey := key;
        }
        link, k := link.next, k + 1;
      }
      key := Some(minKey);
    }
  }

  /** Link k of a list: what it carries and what follows it. */
  lemma CellAt(m: Mem, s: Shape, l: LinkedList, k: nat)
    requires LinksOk(m, s) && l in s.chains && k < |s.chains[l]|
    ensures l in s.queues && k < |s.queues[l]| && s.chains[l][k] in m.links
    ensures m.links[s.chains[l][k]] == LinkVal(s.queues[l][k], After(s.chains[l], k))
    ensures k > 0 ==> s.chains[l][k - 1] in m.links && s.chains[l][k - 1] != s.chains[l][k]
  {
    assert ListOk(m, s, l);
    var c := s.chains[l];
    assert m.links[c[k]].next == After(c, k);
    if k > 0 {
      assert m.links[c[k - 1]].next == After(c, k - 1);
      ChainSimple(m.links, m.lists[l].first, c, k - 1, k);
    }
  }

  lemma FreeNotListed(m: Mem, s: Shape, l: LinkedList)
    requires LinksOk(m, s) && l in s.chains && s.freeL != []
    ensures s.freeL[0] !in s.chains[l]
  {
    assert ListOk(m, s, l);
  }
}
