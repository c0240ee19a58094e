/** What the scheduling queues of ass1ds.cpp mean.  The priority queue is a list of buckets, one per
    tree node, with strictly increasing keys and a first-in first-out list of processes each.  Read
    from left to right it is one sequence of entries, stably sorted by key. */
module SchedSpec {

  type Proc = nat

  datatype Bucket = Bucket(key: int, procs: seq<Proc>)

  datatype Entry = Entry(key: int, p: Proc)

  /** Every key is greater than low. */
  ghost predicate Above(bs: seq<Bucket>, low: int) {
    forall i | 0 <= i < |bs| :: low < bs[i].key
  }

  ghost predicate Rising(bs: seq<Bucket>) {
    bs == [] || (Above(bs[1..], bs[0].key) && Rising(bs[1..]))
  }

  ghost predicate Filled(bs: seq<Bucket>) {
    forall i | 0 <= i < |bs| :: bs[i].procs != []
  }

  ghost predicate HasKey(bs: seq<Bucket>, key: int) {
    exists i | 0 <= i < |bs| :: bs[i].key == key
  }

  // ----- operations on buckets -----

  function Put(bs: seq<Bucket>, key: int, p: Proc): seq<Bucket> {
    if bs == [] || key < bs[0].key then [Bucket(key, [p])] + bs
    else if key == bs[0].key then [Bucket(key, bs[0].procs + [p])] + bs[1..]
    else [bs[0]] + Put(bs[1..], key, p)
  }

  function ExtractMin(bs: seq<Bucket>): seq<Bucket>
    requires bs != [] && bs[0].procs != []
  {
    if |bs[0].procs| == 1 then bs[1..] else [Bucket(bs[0].key, bs[0].procs[1..])] + bs[1..]
  }

  // ----- the sequence of entries -----

  function Tagged(key: int, procs: seq<Proc>): seq<Entry> {
    if procs == [] then [] else [Entry(key, procs[0])] + Tagged(key, procs[1..])
  }

  function Entries(bs: seq<Bucket>): seq<Entry> {
    if bs == [] then [] else Tagged(bs[0].key, bs[0].procs) + Entries(bs[1..])
  }

  function Procs(es: seq<Entry>): seq<Proc> {
    if es == [] then [] else [es[0].p] + Procs(es[1..])
  }

  /** How many leading entries have a key of at most key. */
  function Place(es: seq<Entry>, key: int): (k: nat)
    ensures k <= |es|
  {
    if es == [] || key < es[0].key then 0 else 1 + Place(es[1..], key)
  }

  /** Insertion after every entry with the same or a smaller key. */
  function Insert(es: seq<Entry>, e: Entry): seq<Entry> {
    var k := Place(es, e.key);
    es[..k] + [e] + es[k..]
  }

  ghost predicate Sorted(es: seq<Entry>) {
    forall i, j | 0 <= i < j < |es| :: es[i].key <= es[j].key
  }

  // ----- lemmas about entries -----

  lemma {:induction false} TaggedIs(key: int, procs: seq<Proc>)
    ensures |Tagged(key, procs)| == |procs|
    ensures forall i | 0 <= i < |procs| :: Tagged(key, procs)[i] == Entry(key, procs[i])
  {
    if procs != [] {
      TaggedIs(key, procs[1..]);
    }
  }

  lemma {:induction false} PlaceAfter(a: seq<Entry>, b: seq<Entry>, key: int)
    requires forall i | 0 <= i < |a| :: a[i].key <= key
    ensures Place(a + b, key) == |a| + Place(b, key)
  {
    if a == [] {
      assert a + b == b;
    } else {
      assert (a + b)[1..] == a[1..] + b;
      PlaceAfter(a[1..], b, key);
    }
  }

  /** The first k entries have keys of at most key, the others greater ones. */
  ghost predicate SplitAt(es: seq<Entry>, k: nat, key: int) {
    (forall i | 0 <= i < |es| && i < k :: es[i].key <= key) && (forall i | k <= i < |es| :: key < es[i].key)
  }

  /** On a sorted sequence the insertion point splits it exactly by key. */
  lemma {:induction false} PlaceSplits(es: seq<Entry>, key: int)
    requires Sorted(es)
    ensures SplitAt(es, Place(es, key), key)
  {
    if es != [] && es[0].key <= key {
      PlaceSplits(es[1..], key);
    }
  }

  lemma {:induction false} EntriesAbove(bs: seq<Bucket>, low: int)
    requires Above(bs, low)
    ensures forall i | 0 <= i < |Entries(bs)| :: low < Entries(bs)[i].key
  {
    if bs != [] {
      TaggedIs(bs[0].key, bs[0].procs);
      EntriesAbove(bs[1..], low);
    }
  }

  /** The entries of well-formed buckets are sorted. */
  lemma {:induction false} EntriesSorted(bs: seq<Bucket>)
    requires Rising(bs)
    ensures Sorted(Entries(bs))
  {
    if bs != [] {
      TaggedIs(bs[0].key, bs[0].procs);
      EntriesSorted(bs[1..]);
      EntriesAbove(bs[1..], bs[0].key);
    }
  }

  lemma {:induction false} EntriesCons(b: Bucket, bs: seq<Bucket>)
    ensures Entries([b] + bs) == Tagged(b.key, b.procs) + Entries(bs)
  {
  }

  lemma {:induction false} TaggedAppend(key: int, procs: seq<Proc>, p: Proc)
    ensures Tagged(key, procs + [p]) == Tagged(key, procs) + [Entry(key, p)]
  {
    TaggedIs(key, procs);
    TaggedIs(key, procs + [p]);
  }

  // ----- put and extractMin -----

  lemma InsertAfter(a: seq<Entry>, b: seq<Entry>, e: Entry)
    requires forall i | 0 <= i < |a| :: a[i].key <= e.key
    ensures Insert(a + b, e) == a + Insert(b, e)
  {
    PlaceAfter(a, b, e.key);
    var k := Place(b, e.key);
    assert (a + b)[..|a| + k] == a + b[..k];
    assert (a + b)[|a| + k..] == b[k..];
  }

  lemma InsertFirst(es: seq<Entry>, e: Entry)
    requires es != [] ==> e.key < es[0].key
    ensures Insert(es, e) == [e] + es
  {
  }

  /** put is insertion after all entries with an equal or a smaller key. */
  lemma {:induction false} PutInserts(bs: seq<Bucket>, key: int, p: Proc)
    requires Rising(bs) && Filled(bs)
    ensures Entries(Put(bs, key, p)) == Insert(Entries(bs), Entry(key, p))
  {
    var e := Entry(key, p);
    if bs == [] {
      EntriesCons(Bucket(key, [p]), bs);
    } else {
      var rest, front := Entries(bs[1..]), Tagged(bs[0].key, bs[0].procs);
      TaggedIs(bs[0].key, bs[0].procs);
      EntriesAbove(bs[1..], bs[0].key);
      if key < bs[0].key {
        EntriesCons(Bucket(key, [p]), bs);
        assert Tagged(key, [p]) == [e];
        InsertFirst(Entries(bs), e);
      } else {
        InsertAfter(front, rest, e);
        if key == bs[0].key {
          TaggedAppend(key, bs[0].procs, p);
          EntriesCons(Bucket(key, bs[0].procs + [p]), bs[1..]);
          InsertFirst(rest, e);
          assert front + [e] + rest == front + ([e] + rest);
        } else {
          PutInserts(bs[1..], key, p);
          EntriesCons(bs[0], Put(bs[1..], key, p));
        }
      }
    }
  }

  lemma AboveCons(b: Bucket, bs: seq<Bucket>, low: int)
    requires low < b.key && Above(bs, low)
    ensures Above([b] + bs, low)
  {
  }

  lemma {:induction false} RisingCons(b: Bucket, bs: seq<Bucket>)
    requires Above(bs, b.key) && Rising(bs) && Filled(bs) && b.procs != []
    ensures Rising([b] + bs) && Filled([b] + bs)
  {
  }

  lemma {:induction false} PutAbove(bs: seq<Bucket>, key: int, p: Proc, low: int)
    requires Above(bs, low) && low < key
    ensures Above(Put(bs, key, p), low)
  {
    if bs != [] && key > bs[0].key {
      PutAbove(bs[1..], key, p, low);
    }
  }

  lemma {:induction false} PutKeepsOrder(bs: seq<Bucket>, key: int, p: Proc)
    requires Rising(bs) && Filled(bs)
    ensures Rising(Put(bs, key, p)) && Filled(Put(bs, key, p))
  {
    if bs == [] {
      RisingCons(Bucket(key, [p]), bs);
    } else if key < bs[0].key {
      assert Above(bs, key) by {
        AboveCons(bs[0], bs[1..], key);
        assert [bs[0]] + bs[1..] == bs;
      }
      RisingCons(Bucket(key, [p]), bs);
    } else if key == bs[0].key {
      RisingCons(Bucket(key, bs[0].procs + [p]), bs[1..]);
    } else {
      PutKeepsOrder(bs[1..], key, p);
      PutAbove(bs[1..], key, p, bs[0].key);
      RisingCons(bs[0], Put(bs[1..], key, p));
    }
  }

  /** put uses a new bucket exactly when the key is new. */
  lemma {:induction false} PutSize(bs: seq<Bucket>, key: int, p: Proc)
    requires Rising(bs)
    ensures |Put(bs, key, p)| == |bs| + if HasKey(bs, key) then 0 else 1
  {
    if bs != [] {
      assert HasKey(bs, key) <==> bs[0].key == key || HasKey(bs[1..], key) by {
        HasKeyCons(bs, key);
      }
      if key > bs[0].key {
        PutSize(bs[1..], key, p);
      }
    }
  }

  lemma HasKeyCons(bs: seq<Bucket>, key: int)
    requires bs != []
    ensures HasKey(bs, key) <==> bs[0].key == key || HasKey(bs[1..], key)
  {
  }

  lemma Reassociate(a: seq<Entry>, b: seq<Entry>, c: seq<Entry>)
    ensures a + b + c == a + (b + c)
  {
  }

  lemma {:induction false} FirstEntry(bs: seq<Bucket>)
    requires bs != [] && bs[0].procs != []
    ensures Entries(bs) == [Entry(bs[0].key, bs[0].procs[0])] + Entries(ExtractMin(bs))
  {
    var key, ps, tail := bs[0].key, bs[0].procs, bs[1..];
    calc {
      Entries(bs);
      Tagged(key, ps) + Entries(tail);
      [Entry(key, ps[0])] + Tagged(key, ps[1..]) + Entries(tail);
      { Reassociate([Entry(key, ps[0])], Tagged(key, ps[1..]), Entries(tail)); }
      [Entry(key, ps[0])] + (Tagged(key, ps[1..]) + Entries(tail));
      { DropFirstOf(key, ps, tail); }
      [Entry(key, ps[0])] + Entries(ExtractMin(bs));
    }
  }

  lemma DropFirstOf(key: int, ps: seq<Proc>, tail: seq<Bucket>)
    requires ps != []
    ensures Tagged(key, ps[1..]) + Entries(tail) ==
            Entries(if |ps| == 1 then tail else [Bucket(key, ps[1..])] + tail)
  {
  }

  /** extractMin removes the first entry. */
  lemma {:induction false} ExtractMinDropsFirst(bs: seq<Bucket>)
    requires bs != [] && bs[0].procs != []
    ensures Entries(bs) != [] && Entries(bs)[0] == Entry(bs[0].key, bs[0].procs[0])
    ensures Entries(ExtractMin(bs)) == Entries(bs)[1..]
  {
    FirstEntry(bs);
  }

  lemma {:induction false} ExtractMinKeepsOrder(bs: seq<Bucket>)
    requires Rising(bs) && Filled(bs) && bs != []
    ensures Rising(ExtractMin(bs)) && Filled(ExtractMin(bs))
  {
  }

  // ----- extractProc -----

  function Without(es: seq<Entry>, p: Proc): seq<Entry> {
    if es == [] then []
    else if es[0].p == p then Without(es[1..], p)
    else [es[0]] + Without(es[1..], p)
  }

  /** Every entry is filed under the accumulator of its process. */
  ghost predicate Coherent(es: seq<Entry>, acc: Proc -> int) {
    forall i | 0 <= i < |es| :: es[i].key == acc(es[i].p)
  }

  lemma {:induction false} InsertLast(es: seq<Entry>, e: Entry)
    requires forall i | 0 <= i < |es| :: es[i].key <= e.key
    ensures Insert(es, e) == es + [e]
  {
    InsertAfter(es, [], e);
    assert es + [] == es;
  }

  /** Exactly the entries of other processes are left. */
  lemma {:induction false} WithoutIs(es: seq<Entry>, p: Proc)
    ensures forall e :: e in Without(es, p) <==> e in es && e.p != p
    ensures |Without(es, p)| <= |es|
  {
    if es != [] {
      WithoutIs(es[1..], p);
      assert es == [es[0]] + es[1..];
    }
  }

  // ----- buckets in use during extractProc -----

  function LastKey(bs: seq<Bucket>): int
    requires bs != []
  {
    bs[|bs| - 1].key
  }

  /** The temporary map is being filled with the front of the queue. */
  ghost predicate Draining(bs: seq<Bucket>, ts: seq<Bucket>) {
    bs != [] && ts != [] ==> LastKey(ts) <= bs[0].key
  }

  ghost predicate SharedKey(bs: seq<Bucket>, ts: seq<Bucket>) {
    bs != [] && ts != [] && LastKey(ts) == bs[0].key
  }

  /** Both maps together use at most one bucket more than n. */
  ghost predicate OneExtra(bs: seq<Bucket>, ts: seq<Bucket>, n: nat) {
    |bs| + |ts| <= n + if SharedKey(bs, ts) then 1 else 0
  }

  lemma {:induction false} LastIsGreatest(bs: seq<Bucket>)
    requires Rising(bs) && bs != []
    ensures forall i | 0 <= i < |bs| :: bs[i].key <= LastKey(bs)
  {
    if |bs| > 1 {
      LastIsGreatest(bs[1..]);
      assert LastKey(bs[1..]) == LastKey(bs);
      assert bs[0].key < bs[1..][0].key;
      forall i | 0 < i < |bs|
        ensures bs[i].key <= LastKey(bs)
      {
        assert bs[i] == bs[1..][i - 1];
      }
    }
  }

  lemma HasLast(ts: seq<Bucket>, key: int)
    requires Rising(ts) && (ts != [] ==> LastKey(ts) <= key)
    ensures HasKey(ts, key) <==> ts != [] && LastKey(ts) == key
  {
  }

  lemma {:induction false} PutLast(ts: seq<Bucket>, key: int, p: Proc)
    requires Rising(ts) && (ts != [] ==> LastKey(ts) <= key)
    ensures Put(ts, key, p) != [] && LastKey(Put(ts, key, p)) == key
  {
    if ts != [] {
      LastIsGreatest(ts);
      if key > ts[0].key {
        if |ts| > 1 {
          assert LastKey(ts[1..]) == LastKey(ts);
        }
        PutLast(ts[1..], key, p);
      }
    }
  }

  /** The put of extractProc finds its key or leaves a bucket free: the key is new only if the two
      maps use at most n buckets. */
  lemma {:induction false} RefileNeedsOneBucket(bs: seq<Bucket>, ts: seq<Bucket>, n: nat)
    requires Rising(bs) && Filled(bs) && bs != [] && Rising(ts) && Draining(bs, ts) && OneExtra(bs, ts, n)
    ensures !HasKey(ts, bs[0].key) ==> |ExtractMin(bs)| + |ts| <= n
  {
  }

  lemma {:induction false} RefileStep(bs: seq<Bucket>, ts: seq<Bucket>, n: nat)
    requires Rising(bs) && Filled(bs) && bs != [] && Rising(ts) && Draining(bs, ts) && OneExtra(bs, ts, n)
    ensures var bs', ts' := ExtractMin(bs), Put(ts, bs[0].key, bs[0].procs[0]);
            Draining(bs', ts') && OneExtra(bs', ts', n)
    ensures Draining(ExtractMin(bs), ts) && OneExtra(ExtractMin(bs), ts, n)
  {
    var key, p := bs[0].key, bs[0].procs[0];
    HasLast(ts, key);
    PutSize(ts, key, p);
    PutLast(ts, key, p);
    if |bs| > 1 {
      assert key < bs[1..][0].key;
    }
  }

  ghost predicate Occurs(es: seq<Entry>, p: Proc) {
    exists i | 0 <= i < |es| :: es[i].p == p
  }

  lemma OccursCons(es: seq<Entry>, p: Proc)
    requires es != []
    ensures Occurs(es, p) <==> es[0].p == p || Occurs(es[1..], p)
  {
  }

  /** extractProc half way: bs is what is left of the queue es, ts the temporary map, free the number
      of free nodes, n the number of nodes es started with. */
  ghost predicate Refiling(es: seq<Entry>, p: Proc, acc: Proc -> int, n: nat,
                           bs: seq<Bucket>, ts: seq<Bucket>, free: int, found: bool) {
    && Rising(bs) && Filled(bs) && Rising(ts) && Filled(ts)
    && Coherent(Entries(bs), acc) && Draining(bs, ts) && OneExtra(bs, ts, n) && |bs| + |ts| + free > n
    && Entries(ts) + Without(Entries(bs), p) == Without(es, p)
    && (Occurs(es, p) <==> found || Occurs(Entries(bs), p))
  }

  lemma {:induction false} EntriesUpTo(bs: seq<Bucket>, key: int)
    requires forall i | 0 <= i < |bs| :: bs[i].key <= key
    ensures forall i | 0 <= i < |Entries(bs)| :: Entries(bs)[i].key <= key
  {
    if bs != [] {
      TaggedIs(bs[0].key, bs[0].procs);
      EntriesUpTo(bs[1..], key);
    }
  }

  /** Filing a process under a key that is at least the last one appends it. */
  lemma {:induction false} PutAppends(ts: seq<Bucket>, key: int, p: Proc)
    requires Rising(ts) && Filled(ts) && (ts != [] ==> LastKey(ts) <= key)
    ensures Entries(Put(ts, key, p)) == Entries(ts) + [Entry(key, p)]
  {
    PutInserts(ts, key, p);
    if ts != [] {
      LastIsGreatest(ts);
    }
    EntriesUpTo(ts, key);
    InsertLast(Entries(ts), Entry(key, p));
  }

  /** The process at the head of the queue is filed under its own key, and there is a node for it. */
  lemma {:induction false} RefilingHead(es: seq<Entry>, p: Proc, acc: Proc -> int, n: nat, bs: seq<Bucket>, ts: seq<Bucket>, free: int, found: bool)
    requires Refiling(es, p, acc, n, bs, ts, free, found) && bs != []
    ensures bs[0].procs != [] && acc(bs[0].procs[0]) == bs[0].key
    ensures HasKey(ts, bs[0].key) || free + |bs| - |ExtractMin(bs)| > 0
    ensures |Put(ts, bs[0].key, bs[0].procs[0])| == |ts| + if HasKey(ts, bs[0].key) then 0 else 1
  {
    ExtractMinDropsFirst(bs);
    RefileNeedsOneBucket(bs, ts, n);
    PutSize(ts, bs[0].key, bs[0].procs[0]);
  }

  lemma {:induction false} RefilingKeep(es: seq<Entry>, p: Proc, acc: Proc -> int, n: nat, bs: seq<Bucket>, ts: seq<Bucket>, free: int, found: bool)
    requires Refiling(es, p, acc, n, bs, ts, free, found) && bs != [] && bs[0].procs != [] && bs[0].procs[0] != p
    ensures var ts' := Put(ts, bs[0].key, bs[0].procs[0]);
            Refiling(es, p, acc, n, ExtractMin(bs), ts', free + |bs| - |ExtractMin(bs)| - |ts'| + |ts|, found)
  {
    var key, x := bs[0].key, bs[0].procs[0];
    ExtractMinDropsFirst(bs);
    ExtractMinKeepsOrder(bs);
    PutKeepsOrder(ts, key, x);
    PutAppends(ts, key, x);
    RefileStep(bs, ts, n);
    OccursCons(Entries(bs), p);
    CoherentTail(Entries(bs), acc);
    KeepEntry(Entries(ts), Entries(bs), p);
    hide Rising;
    hide Filled;
    hide Draining;
    hide OneExtra;
    hide Put;
    hide ExtractMin;
    hide Entries;
    hide Occurs;
    hide Coherent;
    hide Without;
  }

  lemma CoherentTail(es: seq<Entry>, acc: Proc -> int)
    requires es != [] && Coherent(es, acc)
    ensures Coherent(es[1..], acc)
  {
  }

  lemma {:induction false} KeepEntry(front: seq<Entry>, es: seq<Entry>, p: Proc)
    requires es != [] && es[0].p != p
    ensures front + [es[0]] + Without(es[1..], p) == front + Without(es, p)
  {
    Reassociate(front, [es[0]], Without(es[1..], p));
  }

  lemma RefilingDrop(es: seq<Entry>, p: Proc, acc: Proc -> int, n: nat, bs: seq<Bucket>, ts: seq<Bucket>, free: int, found: bool)
    requires Refiling(es, p, acc, n, bs, ts, free, found) && bs != [] && bs[0].procs != [] && bs[0].procs[0] == p
    ensures Refiling(es, p, acc, n, ExtractMin(bs), ts, free + |bs| - |ExtractMin(bs)|, true)
  {
    ExtractMinDropsFirst(bs);
    ExtractMinKeepsOrder(bs);
    RefileStep(bs, ts, n);
    OccursCons(Entries(bs), p);
  }

  lemma {:induction false} RefilingStart(bs: seq<Bucket>, p: Proc, acc: Proc -> int, free: int)
    requires Rising(bs) && Filled(bs) && Coherent(Entries(bs), acc) && free > 0
    ensures Refiling(Entries(bs), p, acc, |bs|, bs, [], free, false)
  {
  }

  /** When the queue has run empty the temporary map is the queue without p. */
  lemma {:induction false} RefilingEnd(es: seq<Entry>, p: Proc, acc: Proc -> int, n: nat, ts: seq<Bucket>, free: int, found: bool)
    requires Refiling(es, p, acc, n, [], ts, free, found)
    ensures Entries(ts) == Without(es, p) && (found <==> Occurs(es, p))
  {
  }

  // ----- switching policies -----

  /** Filing a list under key 0 and draining the queue gives the list back. */
  lemma {:induction false} ListToMapToList(ps: seq<Proc>)
    ensures Procs(Tagged(0, ps)) == ps
  {
    if ps != [] {
      ListToMapToList(ps[1..]);
      assert Tagged(0, ps)[1..] == Tagged(0, ps[1..]);
    }
  }

  lemma {:induction false} MoveFirst(ps: seq<Proc>, es: seq<Entry>)
    requires es != []
    ensures ps + [es[0].p] + Procs(es[1..]) == ps + Procs(es)
  {
  }
}
