/** bio.c as code: buffers on a doubly linked ring through a head, most recently released first.
    bget's critical section and brelse's are shown to be steps of CacheMachine, and bget is shown
    to recycle the least recently released buffer that it may recycle. */
module CacheRing {
  import opened CacheMachine

  class Buffer {
    var dev: nat
    var blockno: nat
    var valid: bool
    var dirty: bool
    var refcnt: int
    var data: Data
    var prev: Buffer
    var next: Buffer
    ghost var holder: Holder

    constructor ()
      ensures Value() == Buf(UNUSED_ID, false, false, 0, Nobody, [])
      ensures prev == this && next == this
    {
      dev, blockno, valid, dirty, refcnt, data := 0, 0, false, false, 0, [];
      prev, next := this, this;
      holder := Nobody;
    }

    ghost function Value(): (v: Buf)
      reads this
    {
      Buf(Id(dev, blockno), valid, dirty, refcnt, holder, data)
    }

    method Recycle(dev: nat, blockno: nat)
      modifies this`dev, this`blockno, this`valid, this`dirty, this`refcnt
      ensures Value() == old(Value()).(id := Id(dev, blockno), valid := false, dirty := false, refcnt := 1)
    {
      this.dev := dev;
      this.blockno := blockno;
      valid, dirty := false, false;
      refcnt := 1;
    }

    ghost predicate Recyclable()
      reads this
    {
      refcnt == 0 && !dirty
    }
  }

  ghost predicate Other(s: seq<Buffer>, i: int, j: int)
    requires 0 <= i < |s| && 0 <= j < |s|
  {
    s[i] != s[j]
  }

  ghost predicate NoRepeats(s: seq<Buffer>) {
    forall i, j {:trigger Other(s, i, j)} | 0 <= i < |s| && 0 <= j < |s| && i != j :: Other(s, i, j)
  }

  lemma PushNoRepeats(s: seq<Buffer>, b: Buffer)
    requires NoRepeats(s) && |s| > 0 && b !in s
    ensures NoRepeats([s[0], b] + s[1..])
    ensures forall j | 0 < j < |s| :: s[j] != s[0]
  {
    var t := [s[0], b] + s[1..];
    forall i, j | 0 <= i < |s| && 0 <= j < |s| && i != j
      ensures s[i] != s[j]
    {
      assert Other(s, i, j);
    }
  }

  /** The place in s of element i of s without its element k. */
  function Skip(i: nat, k: nat): nat {
    if i < k then i else i + 1
  }

  lemma DropNoRepeats(s: seq<Buffer>, k: nat)
    requires NoRepeats(s) && k < |s|
    ensures NoRepeats(s[..k] + s[k + 1..]) && s[k] !in s[..k] + s[k + 1..]
    ensures forall i | 0 <= i < |s| - 1 :: (s[..k] + s[k + 1..])[i] == s[Skip(i, k)]
    ensures forall j | 0 <= j < |s| && j != k :: s[j] != s[k]
  {
    var t := s[..k] + s[k + 1..];
    forall i, j | 0 <= i < |s| && 0 <= j < |s| && i != j
      ensures s[i] != s[j]
    {
      assert Other(s, i, j);
    }
    forall i, j | 0 <= i < |t| && 0 <= j < |t| && i != j
      ensures Other(t, i, j)
    {
      assert s[Skip(i, k)] != s[Skip(j, k)];
    }
  }

  lemma NoRepeatsAt(s: seq<Buffer>, k: nat)
    requires NoRepeats(s) && k < |s|
    ensures forall j | 0 <= j < |s| && j != k :: s[j] != s[k]
  {
    forall j | 0 <= j < |s| && j != k
      ensures s[j] != s[k]
    {
      assert Other(s, j, k);
    }
  }

  function Succ(i: nat, n: nat): nat {
    if i + 1 >= n then 0 else i + 1
  }

  function Pred(i: nat, n: nat): nat
    requires n > 0
  {
    if i == 0 then n - 1 else i - 1
  }

  /** The links visit these buffers in turn, in a circle. */
  ghost predicate Linked(ring: seq<Buffer>)
    reads ring
  {
    forall i {:trigger ring[i].next} {:trigger ring[i].prev} | 0 <= i < |ring| ::
      && ring[i].next == ring[Succ(i, |ring|)]
      && ring[i].prev == ring[Pred(i, |ring|)]
  }

  /** A buffer linked in after the first one makes a circle with it. */
  lemma Inserted(r: seq<Buffer>, b: Buffer, t: seq<Buffer>)
    requires |r| > 0 && |t| == |r| + 1 && t[0] == r[0] && t[1] == b && forall i | 1 <= i < |r| :: t[i + 1] == r[i]
    requires r[0].next == b && b.prev == r[0] && b.next == r[Succ(0, |r|)] && r[Succ(0, |r|)].prev == b
    requires forall o | 0 < o < |r| :: r[o].next == r[Succ(o, |r|)]
    requires forall o | 0 <= o < |r| && o != Succ(0, |r|) :: r[o].prev == r[Pred(o, |r|)]
    ensures Linked(t)
  {
    forall i | 0 <= i < |t|
      ensures t[i].next == t[Succ(i, |t|)] && t[i].prev == t[Pred(i, |t|)]
    {
      if i >= 2 {
        assert t[i] == r[i - 1];
      }
      assert Succ(i, |t|) >= 2 ==> t[Succ(i, |t|)] == r[Succ(i, |t|) - 1];
      assert Pred(i, |t|) >= 2 ==> t[Pred(i, |t|)] == r[Pred(i, |t|) - 1];
    }
  }

  /** Buffer k bypassed by its neighbours leaves a circle without it. */
  lemma Bypassed(r: seq<Buffer>, k: nat, t: seq<Buffer>)
    requires 0 < k < |r| && |t| == |r| - 1 && forall i | 0 <= i < |t| :: t[i] == r[Skip(i, k)]
    requires r[k - 1].next == r[Succ(k, |r|)] && r[Succ(k, |r|)].prev == r[k - 1]
    requires forall o | 0 <= o < |r| && o != k - 1 :: r[o].next == r[Succ(o, |r|)]
    requires forall o | 0 <= o < |r| && o != Succ(k, |r|) :: r[o].prev == r[Pred(o, |r|)]
    ensures Linked(t)
  {
    var n := |r|;
    forall i | 0 <= i < |t|
      ensures t[i].next == t[Succ(i, |t|)] && t[i].prev == t[Pred(i, |t|)]
    {
      var o := Skip(i, k);
      assert t[i] == r[o];
      assert t[Succ(i, |t|)] == r[Skip(Succ(i, |t|), k)];
      assert t[Pred(i, |t|)] == r[Skip(Pred(i, |t|), k)];
      assert Skip(Succ(i, |t|), k) == if o == k - 1 then Succ(k, n) else Succ(o, n);
      assert Skip(Pred(i, |t|), k) == if o == Succ(k, n) then k - 1 else Pred(o, n);
    }
  }

  /** The ring after its head and the array hold the same buffers. */
  ghost predicate SameBuffers(ring: seq<Buffer>, buf: seq<Buffer>)
    requires |ring| > 0
  {
    multiset(ring[1..]) == multiset(buf)
  }

  lemma AddSameBuffers(ring: seq<Buffer>, buf: seq<Buffer>, b: Buffer)
    requires |ring| > 0 && SameBuffers(ring, buf)
    ensures SameBuffers([ring[0], b] + ring[1..], buf + [b])
  {
    assert ([ring[0], b] + ring[1..])[1..] == [b] + ring[1..];
  }

  lemma AddNoRepeats(buf: seq<Buffer>, b: Buffer)
    requires NoRepeats(buf) && b !in buf
    ensures NoRepeats(buf + [b])
  {
    forall i, j | 0 <= i <= |buf| && 0 <= j <= |buf| && i != j
      ensures Other(buf + [b], i, j)
    {
      if i < |buf| && j < |buf| {
        assert Other(buf, i, j);
      }
    }
  }

  lemma MoveSameBuffers(ring: seq<Buffer>, buf: seq<Buffer>, k: nat)
    requires 0 < k < |ring| && SameBuffers(ring, buf)
    ensures SameBuffers([ring[0], ring[k]] + (ring[..k] + ring[k + 1..])[1..], buf)
  {
    var t := ring[..k] + ring[k + 1..];
    assert ring[1..] == ring[1..k] + [ring[k]] + ring[k + 1..];
    assert t[1..] == ring[1..k] + ring[k + 1..];
    assert ([ring[0], ring[k]] + t[1..])[1..] == [ring[k]] + t[1..];
  }

  lemma InBoth(ring: seq<Buffer>, buf: seq<Buffer>)
    requires |ring| > 0 && SameBuffers(ring, buf)
    ensures forall i | 0 < i < |ring| :: ring[i] in buf
    ensures forall i | 0 <= i < |buf| :: buf[i] in ring[1..]
  {
    forall i | 0 < i < |ring|
      ensures ring[i] in buf
    {
      assert ring[1..][i - 1] in multiset(buf);
    }
    forall i | 0 <= i < |buf|
      ensures buf[i] in ring[1..]
    {
      assert buf[i] in multiset(ring[1..]);
    }
  }

  lemma NotFound(ring: seq<Buffer>, buf: seq<Buffer>, dev: nat, blockno: nat)
    requires |ring| > 0 && SameBuffers(ring, buf)
    requires forall j | 0 < j < |ring| :: ring[j].dev != dev || ring[j].blockno != blockno
    ensures forall k | 0 <= k < |buf| :: buf[k].Value().id != Id(dev, blockno)
  {
    InBoth(ring, buf);
    forall k | 0 <= k < |buf|
      ensures buf[k].Value().id != Id(dev, blockno)
    {
      var j :| 0 <= j < |ring[1..]| && ring[1..][j] == buf[k];
      assert ring[j + 1] == buf[k];
    }
  }

  lemma NoneRecyclable(ring: seq<Buffer>, buf: seq<Buffer>)
    requires |ring| > 0 && SameBuffers(ring, buf) && forall j | 0 < j < |ring| :: !ring[j].Recyclable()
    ensures forall k | 0 <= k < |buf| :: !buf[k].Recyclable()
  {
    InBoth(ring, buf);
    forall k | 0 <= k < |buf|
      ensures !buf[k].Recyclable()
    {
      var j :| 0 <= j < |ring[1..]| && ring[1..][j] == buf[k];
      assert ring[j + 1] == buf[k];
    }
  }

  ghost predicate AtLeast(t: seq<int>, i: int, j: int)
    requires 0 <= i < |t| && 0 <= j < |t|
  {
    t[i] >= t[j]
  }

  ghost predicate Descending(t: seq<int>) {
    forall i, j {:trigger AtLeast(t, i, j)} | 0 <= i <= j < |t| :: AtLeast(t, i, j)
  }

  /** Release times after the buffer at place i is released at time now. */
  function Restamp(t: seq<int>, i: nat, now: int): seq<int>
    requires 0 < i < |t|
  {
    [now + 1, now] + (t[..i] + t[i + 1..])[1..]
  }

  lemma RestampDescending(t: seq<int>, i: nat, now: int)
    requires 0 < i < |t| && Descending(t) && t[0] == now
    ensures Descending(Restamp(t, i, now))
  {
    var u := Restamp(t, i, now);
    forall x | 2 <= x < |u|
      ensures u[x] == t[if x - 1 < i then x - 1 else x] && u[x] <= now
    {
      assert AtLeast(t, 0, if x - 1 < i then x - 1 else x);
    }
    forall x, y | 0 <= x <= y < |u|
      ensures AtLeast(u, x, y)
    {
      if x >= 2 {
        assert AtLeast(t, if x - 1 < i then x - 1 else x, if y - 1 < i then y - 1 else y);
      }
    }
  }

  class BufferCache {
    const head: Buffer
    /** bcache.buf[NBUF] */
    var buf: seq<Buffer>
    /** The buffers in the order of the links: the head, then the most recently released first. */
    ghost var ring: seq<Buffer>
    /** When the last reference to each buffer of the ring was dropped. */
    ghost var stamps: seq<int>
    ghost var clock: int

    ghost predicate Shape()
      reads this, ring
    {
      |ring| > 0 && ring[0] == head && NoRepeats(ring) && Linked(ring)
    }

    ghost predicate Valid()
      reads this, ring, buf
    {
      && Shape() && NoRepeats(buf) && SameBuffers(ring, buf)
      && |stamps| == |ring| && stamps[0] == clock && Descending(stamps)
    }

    /** These are the values of the buffers. */
    ghost predicate Shows(bufs: seq<Buf>)
      reads this, buf
    {
      |bufs| == |buf| && forall i | 0 <= i < |buf| :: buf[i].Value() == bufs[i]
    }

    /** Links b in after the head. */
    method PushFront(b: Buffer)
      requires Shape() && b !in ring
      modifies this`ring, b`next, b`prev, ring`next, ring`prev
      ensures Shape() && ring == [head, b] + old(ring)[1..]
    {
      PushNoRepeats(ring, b);
      LinkIn(b);
      Inserted(ring, b, [head, b] + ring[1..]);
      hide NoRepeats;
      ring := [head, b] + ring[1..];
    }

    /** The four assignments of bio.c that link b in after the head. */
    method LinkIn(b: Buffer)
      requires Shape() && b !in ring
      modifies b`next, b`prev, ring`next, ring`prev
      ensures head.next == b && b.prev == head && b.next == ring[Succ(0, |ring|)] && ring[Succ(0, |ring|)].prev == b
      ensures forall o | 0 < o < |ring| :: ring[o].next == ring[Succ(o, |ring|)]
      ensures forall o | 0 <= o < |ring| && o != Succ(0, |ring|) :: ring[o].prev == ring[Pred(o, |ring|)]
    {
      assert head.next == ring[Succ(0, |ring|)];
      NoRepeatsAt(ring, 0);
      NoRepeatsAt(ring, Succ(0, |ring|));
      hide NoRepeats;
      b.next := head.next;
      b.prev := head;
      head.next.prev := b;
      head.next := b;
    }

    method AddBuffer(b: Buffer)
      requires Valid() && b !in ring && clock == 0 && stamps == seq(|ring|, _ => 0)
      modifies this`ring, this`buf, this`stamps, b`next, b`prev, ring`next, ring`prev
      ensures Valid() && buf == old(buf) + [b] && ring == [head, b] + old(ring)[1..]
      ensures stamps == seq(|ring|, _ => 0)
    {
      AddSameBuffers(ring, buf, b);
      InBoth(ring, buf);
      AddNoRepeats(buf, b);
      PushFront(b);
      buf := buf + [b];
      stamps := seq(|ring|, _ => 0);
    }

    /** Takes the buffer at place k out of the ring. */
    method Unlink(b: Buffer, ghost k: nat)
      requires Shape() && 0 < k < |ring| && ring[k] == b
      modifies this`ring, ring`next, ring`prev
      ensures Shape() && b !in ring
      ensures ring == old(ring)[..k] + old(ring)[k + 1..]
    {
      ghost var r, n := ring, |ring|;
      assert b.next == r[Succ(k, n)] && b.prev == r[k - 1];
      DropNoRepeats(r, k);
      NoRepeatsAt(r, k - 1);
      NoRepeatsAt(r, Succ(k, n));
      b.next.prev := b.prev;
      b.prev.next := b.next;
      Bypassed(r, k, r[..k] + r[k + 1..]);
      ring := r[..k] + r[k + 1..];
    }

    constructor ()
      ensures Valid() && buf == [] && ring == [head] && clock == 0 && stamps == [0] && fresh(head)
    {
      var h := new Buffer();
      head := h;
      buf, ring, stamps, clock := [], [h], [0], 0;
    }

    /** binit */
    method Binit(n: nat)
      requires Valid() && buf == [] && ring == [head] && clock == 0 && stamps == [0]
      modifies this`ring, this`buf, this`stamps, head`next, head`prev
      ensures Valid() && |buf| == n
      ensures forall b | b in buf :: fresh(b) && b.Value() == Buf(UNUSED_ID, false, false, 0, Nobody, [])
    {
      for k := 0 to n
        invariant Valid() && |buf| == k && clock == 0 && stamps == seq(|ring|, _ => 0)
        invariant forall i | 0 < i < |ring| :: fresh(ring[i])
        invariant forall b | b in buf :: fresh(b) && b.Value() == Buf(UNUSED_ID, false, false, 0, Nobody, [])
      {
        var b := new Buffer();
        AddBuffer(b);
      }
    }

    /** bget's first loop: the first buffer on the ring that holds the block. */
    method Find(dev: nat, blockno: nat) returns (b: Buffer, ghost i: nat)
      requires Shape()
      ensures 0 < i <= |ring| && b == ring[if i == |ring| then 0 else i]
      ensures forall j | 0 < j < i :: ring[j].dev != dev || ring[j].blockno != blockno
      ensures i < |ring| ==> b != head && b.dev == dev && b.blockno == blockno
    {
      b, i := head.next, 1;
      assert head == ring[0] && head.next == ring[Succ(0, |ring|)];
      NoRepeatsAt(ring, 0);
      while b != head && !(b.dev == dev && b.blockno == blockno)
        invariant 0 < i <= |ring| && b == ring[if i == |ring| then 0 else i]
        invariant forall j | 0 < j < i :: ring[j].dev != dev || ring[j].blockno != blockno
        decreases |ring| - i
      {
        assert b == ring[i] && b.next == ring[Succ(i, |ring|)];
        b, i := b.next, i + 1;
      }
    }

    /** bget's second loop: the last buffer on the ring that may be recycled. */
    method FindUnused() returns (b: Buffer, ghost i: nat)
      requires Shape()
      ensures i < |ring| && b == ring[i]
      ensures forall j | i < j < |ring| :: !ring[j].Recyclable()
      ensures i > 0 ==> b != head && b.Recyclable()
    {
      b, i := head.prev, |ring| - 1;
      assert head == ring[0] && head.prev == ring[Pred(0, |ring|)];
      NoRepeatsAt(ring, 0);
      while b != head && !(b.refcnt == 0 && !b.dirty)
        invariant i < |ring| && b == ring[i]
        invariant forall j | i < j < |ring| :: !ring[j].Recyclable()
        decreases i
      {
        assert b.prev == ring[Pred(i, |ring|)];
        b, i := b.prev, i - 1;
      }
    }

    method AddReference(b: Buffer, ghost k: nat, ghost bufs: seq<Buf>)
      requires Valid() && Shows(bufs) && k < |buf| && buf[k] == b
      modifies b`refcnt
      ensures Valid() && Shows(bufs[k := bufs[k].(refcnt := bufs[k].refcnt + 1)])
    {
      NoRepeatsAt(buf, k);
      b.refcnt := b.refcnt + 1;
    }

    method DropReference(b: Buffer, ghost k: nat, ghost bufs: seq<Buf>)
      requires Valid() && Shows(bufs) && k < |buf| && buf[k] == b
      modifies b`refcnt
      ensures Valid() && Shows(bufs[k := bufs[k].(refcnt := bufs[k].refcnt - 1)])
    {
      NoRepeatsAt(buf, k);
      b.refcnt := b.refcnt - 1;
    }

    method TakeOver(b: Buffer, ghost k: nat, dev: nat, blockno: nat, ghost bufs: seq<Buf>)
      requires Valid() && Shows(bufs) && k < |buf| && buf[k] == b
      modifies b`dev, b`blockno, b`valid, b`dirty, b`refcnt
      ensures Valid()
      ensures Shows(bufs[k := bufs[k].(id := Id(dev, blockno), valid := false, dirty := false, refcnt := 1)])
    {
      NoRepeatsAt(buf, k);
      b.Recycle(dev, blockno);
    }

    /** bget's choice: a buffer that holds the block, else the one whose last reference was dropped
        the longest ago among those it may recycle, else none. */
    method Choose(dev: nat, blockno: nat) returns (b: Buffer?, cached: bool, ghost k: nat, ghost i: nat)
      requires Valid()
      ensures cached <==> exists i | 0 <= i < |buf| :: buf[i].Value().id == Id(dev, blockno)
      ensures b != null ==> k < |buf| && buf[k] == b
      ensures cached ==> b != null && b.Value().id == Id(dev, blockno)
      ensures !cached && b != null ==>
                && b.Recyclable() && 0 < i < |ring| && ring[i] == b
                && forall j | 0 < j < |ring| && ring[j].Recyclable() :: stamps[i] <= stamps[j]
      ensures b == null ==> forall i | 0 <= i < |buf| :: !buf[i].Recyclable()
    {
      InBoth(ring, buf);
      k := 0;
      b, i := Find(dev, blockno);
      if b != head {
        k :| 0 <= k < |buf| && buf[k] == b;
        cached := true;
        assert buf[k].Value().id == Id(dev, blockno);
        return;
      }
      NoRepeatsAt(ring, 0);
      NotFound(ring, buf, dev, blockno);
      cached := false;
      b, i := FindUnused();
      if b != head {
        k :| 0 <= k < |buf| && buf[k] == b;
        forall j | 0 < j < |ring| && ring[j].Recyclable()
          ensures stamps[i] <= stamps[j]
        {
          assert AtLeast(stamps, j, i);
        }
        return;
      }
      NoneRecyclable(ring, buf);
      b := null;
    }

    /** The choice, in terms of the machine state. */
    method ChooseShown(dev: nat, blockno: nat, ghost s: State) returns (b: Buffer?, cached: bool, ghost k: nat, ghost i: nat)
      requires Valid() && Shows(s.bufs)
      ensures |s.bufs| == |buf| && (cached <==> Cached(s.bufs, Id(dev, blockno)))
      ensures b != null ==> k < |buf| && buf[k] == b
      ensures cached ==> b != null && s.bufs[k].id == Id(dev, blockno)
      ensures !cached && b != null ==>
                && s.bufs[k].refcnt == 0 && !s.bufs[k].dirty && 0 < i < |ring| == |stamps| && ring[i] == b
                && forall j | 0 < j < |ring| && ring[j].Recyclable() :: stamps[i] <= stamps[j]
      ensures b == null ==> forall j | 0 <= j < |s.bufs| :: s.bufs[j].refcnt != 0 || s.bufs[j].dirty
    {
      b, cached, k, i := Choose(dev, blockno);
      assert forall j | 0 <= j < |buf| :: buf[j].Value() == s.bufs[j];
    }

    /** bget up to its release of bcache.lock; null stands for the panic "no buffers".  s and c are
        the machine state and the caller this call belongs to. */
    method Bget(dev: nat, blockno: nat, ghost s: State, ghost c: nat) returns (b: Buffer?, ghost k: nat, ghost i: nat, ghost s': State)
      requires Valid() && Shows(s.bufs) && c < |s.callers| && s.callers[c].Idle?
      modifies buf`dev, buf`blockno, buf`valid, buf`dirty, buf`refcnt
      ensures Valid() && ring == old(ring) && buf == old(buf) && Shows(s'.bufs)
      ensures b != null ==> k < |buf| && buf[k] == b
      ensures if Cached(s.bufs, Id(dev, blockno)) then b != null && HitStep(s, c, Id(dev, blockno), k, s')
              else if b != null then RecycleStep(s, c, Id(dev, blockno), k, s')
              else s' == s && forall i | 0 <= i < |s.bufs| :: s.bufs[i].refcnt != 0 || s.bufs[i].dirty
      ensures !Cached(s.bufs, Id(dev, blockno)) && b != null ==>
                && 0 < i < |ring| && ring[i] == b
                && forall j | 0 < j < |ring| && old(ring[j].Recyclable()) :: stamps[i] <= stamps[j]
    {
      var cached;
      b, cached, k, i := ChooseShown(dev, blockno, s);
      hide BufferCache.Valid;
      hide BufferCache.Shows;
      hide Cached;
      s' := s;
      if cached {
        AddReference(b, k, s.bufs);
        s' := s.(bufs := s.bufs[k := s.bufs[k].(refcnt := s.bufs[k].refcnt + 1)],
                 callers := s.callers[c := Waiting(k, Id(dev, blockno))]);
      } else if b != null {
        TakeOver(b, k, dev, blockno, s.bufs);
        s' := s.(bufs := s.bufs[k := s.bufs[k].(id := Id(dev, blockno), valid := false, dirty := false, refcnt := 1)],
                 callers := s.callers[c := Waiting(k, Id(dev, blockno))]);
      }
    }

    /** Moves b, at place i of the ring, to its front. */
    method Touch(b: Buffer, ghost i: nat)
      requires Valid() && 0 < i < |ring| && ring[i] == b
      modifies this`ring, this`clock, this`stamps, ring`next, ring`prev
      ensures Valid() && |ring| > 1 && ring[1] == b && stamps == Restamp(old(stamps), i, old(clock))
      ensures ring == [head, b] + (old(ring)[..i] + old(ring)[i + 1..])[1..]
    {
      MoveSameBuffers(ring, buf, i);
      RestampDescending(stamps, i, clock);
      Unlink(b, i);
      PushFront(b);
      stamps := Restamp(stamps, i, clock);
      clock := clock + 1;
    }

    /** The same, which changes the links of the buffers and nothing else in them. */
    method TouchShown(b: Buffer, ghost i: nat, ghost bufs: seq<Buf>)
      requires Valid() && 0 < i < |ring| == |stamps| && ring[i] == b && Shows(bufs)
      modifies this`ring, this`clock, this`stamps, ring`next, ring`prev
      ensures Valid() && Shows(bufs) && stamps == Restamp(old(stamps), i, old(clock))
      ensures ring == [head, b] + (old(ring)[..i] + old(ring)[i + 1..])[1..]
    {
      hide BufferCache.Valid;
      hide Restamp;
      Touch(b, i);
    }

    /** The critical section of brelse. */
    method Unreference(b: Buffer, ghost k: nat, ghost s: State, ghost c: nat) returns (ghost i: nat, ghost s': State)
      requires Valid() && Shows(s.bufs) && c < |s.callers| && s.callers[c] == Leaving(k)
      requires k < |buf| && buf[k] == b
      modifies this`ring, this`clock, this`stamps, ring`next, ring`prev, b`refcnt
      ensures Valid() && buf == old(buf) && Shows(s'.bufs) && UnrefStep(s, c, s')
      ensures 0 < i < |old(ring)| == |old(stamps)| && old(ring)[i] == b
      ensures b.refcnt == 0 ==> ring == [head, b] + (old(ring)[..i] + old(ring)[i + 1..])[1..] && stamps == Restamp(old(stamps), i, old(clock))
      ensures b.refcnt != 0 ==> ring == old(ring) && stamps == old(stamps)
    {
      s' := s.(bufs := s.bufs[k := s.bufs[k].(refcnt := s.bufs[k].refcnt - 1)], callers := s.callers[c := Idle]);
      InBoth(ring, buf);
      ghost var j :| 0 <= j < |ring[1..]| && ring[1..][j] == b;
      i := j + 1;
      assert ring[i] == b && |stamps| == |ring| && |s.bufs| == |buf|;
      hide BufferCache.Valid;
      hide BufferCache.Shows;
      hide Restamp;
      DropReference(b, k, s.bufs);
      if b.refcnt == 0 {
        TouchShown(b, i, s'.bufs);
      }
    }
  }
}
