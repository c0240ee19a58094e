/** The free list of umalloc.c on values.  Addresses and sizes count units of sizeof(Header) bytes. */
module UmallocList {
  datatype Header = Header(ptr: nat, size: nat)
  type Memory = map<nat, Header>

  datatype Extent = Extent(addr: nat, size: nat)

  predicate Has(e: Extent, u: nat) {
    e.addr <= u < e.addr + e.size
  }

  /** a lies below b and does not touch it. */
  predicate Below(a: Extent, b: Extent) {
    a.addr + a.size < b.addr
  }

  function Next(i: nat, n: nat): nat {
    if i + 1 < n then i + 1 else 0
  }

  /** The header of block i holds its size and the address of the next block. */
  ghost predicate LinkAt(m: Memory, free: seq<Extent>, i: nat)
    requires i < |free|
  {
    free[i].addr in m && m[free[i].addr] == Header(free[Next(i, |free|)].addr, free[i].size)
  }

  /** The list is circular, begins with the empty block base and rises, with one wrap at its end; no two
      of its blocks touch. */
  ghost predicate ListOk(m: Memory, base: nat, free: seq<Extent>) {
    && |free| > 0 && free[0] == Extent(base, 0)
    && (forall i | 1 <= i < |free| :: free[i].size > 0)
    && (forall i, j {:trigger Below(free[i], free[j])} | 0 <= i < j < |free| :: Below(free[i], free[j]))
    && (forall i {:trigger LinkAt(m, free, i)} | 0 <= i < |free| :: LinkAt(m, free, i))
  }

  ghost predicate InFree(free: seq<Extent>, u: nat) {
    exists i | 0 <= i < |free| :: Has(free[i], u)
  }

  /** Block e shares no unit with the list. */
  ghost predicate Clear(free: seq<Extent>, e: Extent) {
    forall u | Has(e, u) :: !InFree(free, u)
  }

  /** The last block of the list that begins below address bp. */
  ghost function Place(free: seq<Extent>, bp: nat): (t: nat)
    requires |free| > 0 && free[0].addr < bp
    ensures t < |free| && free[t].addr < bp && (t + 1 < |free| ==> free[t + 1].addr >= bp)
    decreases |free|
  {
    var n := |free| - 1;
    if free[n].addr < bp then n else Place(free[..n], bp)
  }

  /** Where a block that is not on the list lies between its neighbours. */
  lemma {:induction false} Neighbours(m: Memory, base: nat, free: seq<Extent>, e: Extent)
    requires ListOk(m, base, free) && base < e.addr && e.size > 0 && Clear(free, e)
    ensures var t := Place(free, e.addr);
            && free[t].addr + free[t].size <= e.addr
            && (t + 1 < |free| ==> e.addr + e.size <= free[t + 1].addr)
  {
    var t := Place(free, e.addr);
    if free[t].addr + free[t].size > e.addr {
      assert Has(free[t], e.addr) && Has(e, e.addr);
    }
    if t + 1 < |free| && e.addr + e.size > free[t + 1].addr {
      assert Has(free[t + 1], free[t + 1].addr) && Has(e, free[t + 1].addr);
    }
  }

  // ----- free -----

  /** The block is joined with the one above it. */
  predicate JoinsUp(free: seq<Extent>, t: nat, e: Extent)
    requires t < |free|
  {
    t + 1 < |free| && e.addr + e.size == free[t + 1].addr
  }

  predicate JoinsDown(free: seq<Extent>, t: nat, e: Extent)
    requires t < |free|
  {
    free[t].addr + free[t].size == e.addr
  }

  function Joined(free: seq<Extent>, t: nat, e: Extent): Extent
    requires t < |free|
  {
    Extent(e.addr, e.size + if JoinsUp(free, t, e) then free[t + 1].size else 0)
  }

  /** The list after block e is put behind block t. */
  function Inserted(free: seq<Extent>, t: nat, e: Extent): seq<Extent>
    requires t < |free|
  {
    var e' := Joined(free, t, e);
    var rest := if JoinsUp(free, t, e) then free[t + 2..] else free[t + 1..];
    if JoinsDown(free, t, e) then free[..t] + [Extent(free[t].addr, free[t].size + e'.size)] + rest
    else free[..t + 1] + [e'] + rest
  }

  /** The position in the old list of block i of the new one, for blocks that have not changed. */
  function Origin(free: seq<Extent>, t: nat, e: Extent, i: nat): nat
    requires t < |free|
  {
    if i <= t then i else i + (if JoinsDown(free, t, e) then 1 else 0) + (if JoinsUp(free, t, e) then 1 else 0) - 1
  }

  lemma InsertedAt(free: seq<Extent>, t: nat, e: Extent, i: nat)
    requires t < |free| && i < |Inserted(free, t, e)|
    ensures |Inserted(free, t, e)| == |free| + 1 - (if JoinsDown(free, t, e) then 1 else 0) - (if JoinsUp(free, t, e) then 1 else 0)
    ensures var e' := Joined(free, t, e);
            var at := if JoinsDown(free, t, e) then t else t + 1;
            if i == at then Inserted(free, t, e)[i] == if JoinsDown(free, t, e) then Extent(free[t].addr, free[t].size + e'.size) else e'
            else Origin(free, t, e, i) < |free| && Inserted(free, t, e)[i] == free[Origin(free, t, e, i)]
  {
  }

  /** The memory after free(bp), for a list position t: what free writes. */
  function FreedMemory(m: Memory, free: seq<Extent>, t: nat, e: Extent): Memory
    requires t < |free| && free[t].addr in m
  {
    var e' := Joined(free, t, e);
    var after := free[Next(if JoinsUp(free, t, e) then t + 1 else t, |free|)].addr;
    var m1 := m[e.addr := Header(after, e'.size)];
    if JoinsDown(free, t, e) then m1[free[t].addr := Header(after, free[t].size + e'.size)]
    else m1[free[t].addr := Header(e.addr, free[t].size)]
  }

  lemma {:induction false} InsertedRises(m: Memory, base: nat, free: seq<Extent>, e: Extent, i: nat, j: nat)
    requires ListOk(m, base, free) && base < e.addr && e.size > 0 && Clear(free, e)
    requires i < j < |Inserted(free, Place(free, e.addr), e)|
    ensures Below(Inserted(free, Place(free, e.addr), e)[i], Inserted(free, Place(free, e.addr), e)[j])
  {
    var t := Place(free, e.addr);
    Neighbours(m, base, free, e);
    InsertedAt(free, t, e, i);
    InsertedAt(free, t, e, j);
    var oi, oj := Origin(free, t, e, i), Origin(free, t, e, j);
    assert oi < |free| && oj < |free| && oi < oj ==> Below(free[oi], free[oj]);
    assert oi < t ==> Below(free[oi], free[t]);
    assert t + 1 < oj < |free| ==> Below(free[t + 1], free[oj]);
    assert oi < t + 1 < |free| ==> Below(free[oi], free[t + 1]);
    assert t < oj < |free| ==> Below(free[t], free[oj]);
  }

  /** The headers of the blocks that free does not write. */
  lemma {:induction false} InsertedLinkedAway(m: Memory, base: nat, free: seq<Extent>, e: Extent, i: nat)
    requires ListOk(m, base, free) && base < e.addr && e.size > 0 && Clear(free, e)
    requires var t := Place(free, e.addr); i < |Inserted(free, t, e)| && (i < t || i > t + if JoinsDown(free, t, e) then 0 else 1)
    ensures var t := Place(free, e.addr);
            free[t].addr in m && LinkAt(FreedMemory(m, free, t, e), Inserted(free, t, e), i)
  {
    var t := Place(free, e.addr);
    Neighbours(m, base, free, e);
    assert LinkAt(m, free, t);
    InsertedAt(free, t, e, i);
    var oi := Origin(free, t, e, i);
    assert LinkAt(m, free, oi);
    assert free[oi].addr != e.addr && free[oi].addr != free[t].addr by {
      assert oi < t ==> Below(free[oi], free[t]);
      assert t < oi ==> Below(free[t], free[oi]);
      assert t + 1 < oi ==> Below(free[t + 1], free[oi]);
    }
    InsertedAt(free, t, e, Next(i, |Inserted(free, t, e)|));
    hide Inserted;
    hide ListOk;
    hide Clear;
  }

  lemma {:induction false} InsertedLinked(m: Memory, base: nat, free: seq<Extent>, e: Extent, i: nat)
    requires ListOk(m, base, free) && base < e.addr && e.size > 0 && Clear(free, e)
    requires i < |Inserted(free, Place(free, e.addr), e)|
    ensures var t := Place(free, e.addr);
            free[t].addr in m && LinkAt(FreedMemory(m, free, t, e), Inserted(free, t, e), i)
  {
    var t := Place(free, e.addr);
    if i < t || i > t + if JoinsDown(free, t, e) then 0 else 1 {
      InsertedLinkedAway(m, base, free, e, i);
    } else {
      assert LinkAt(m, free, t);
      InsertedAt(free, t, e, i);
      InsertedAt(free, t, e, Next(i, |Inserted(free, t, e)|));
    }
  }

  /** free keeps the list well formed, whatever the block joins with. */
  lemma {:induction false} InsertedOk(m: Memory, base: nat, free: seq<Extent>, e: Extent)
    requires ListOk(m, base, free) && base < e.addr && e.size > 0 && Clear(free, e)
    ensures free[Place(free, e.addr)].addr in m
    ensures ListOk(FreedMemory(m, free, Place(free, e.addr), e), base, Inserted(free, Place(free, e.addr), e))
  {
    var t := Place(free, e.addr);
    assert LinkAt(m, free, t);
    var free', m' := Inserted(free, t, e), FreedMemory(m, free, t, e);
    InsertedAt(free, t, e, 0);
    Neighbours(m, base, free, e);
    forall i | 0 <= i < |free'|
      ensures LinkAt(m', free', i)
      ensures i >= 1 ==> free'[i].size > 0
    {
      InsertedLinked(m, base, free, e, i);
      InsertedAt(free, t, e, i);
    }
    forall i, j | 0 <= i < j < |free'|
      ensures Below(free'[i], free'[j])
    {
      InsertedRises(m, base, free, e, i, j);
    }
  }

  /** The list gains exactly the units of the block. */
  lemma {:induction false} InsertedUnits(m: Memory, base: nat, free: seq<Extent>, e: Extent, u: nat)
    requires ListOk(m, base, free) && base < e.addr && e.size > 0 && Clear(free, e)
    ensures InFree(Inserted(free, Place(free, e.addr), e), u) <==> InFree(free, u) || Has(e, u)
  {
    var t := Place(free, e.addr);
    var free' := Inserted(free, t, e);
    var at := if JoinsDown(free, t, e) then t else t + 1;
    InsertedAt(free, t, e, at);
    if i :| 0 <= i < |free'| && Has(free'[i], u) {
      InsertedAt(free, t, e, i);
      assert t + 1 < |free| && JoinsUp(free, t, e) && Has(free[t + 1], u) ==> InFree(free, u);
    }
    if i :| 0 <= i < |free| && Has(free[i], u) {
      var i' := if i <= t then i else if JoinsUp(free, t, e) && i == t + 1 then at
                else i + 1 - (if JoinsDown(free, t, e) then 1 else 0) - (if JoinsUp(free, t, e) then 1 else 0);
      InsertedAt(free, t, e, i');
      assert Has(free'[i'], u);
    }
    if Has(e, u) {
      assert Has(free'[at], u);
    }
  }

  // ----- malloc -----

  /** The list after n units are cut from the end of block j. */
  function Cut(free: seq<Extent>, j: nat, n: nat): seq<Extent>
    requires j < |free| && n <= free[j].size
  {
    if free[j].size == n then free[..j] + free[j + 1..] else free[j := Extent(free[j].addr, free[j].size - n)]
  }

  function CutMemory(m: Memory, free: seq<Extent>, j: nat, n: nat): Memory
    requires 0 < j < |free| && n <= free[j].size && free[j - 1].addr in m && free[j].addr in m
  {
    if free[j].size == n then m[free[j - 1].addr := Header(m[free[j].addr].ptr, m[free[j - 1].addr].size)]
    else
      var m1 := m[free[j].addr := Header(m[free[j].addr].ptr, free[j].size - n)];
      var p := free[j].addr + free[j].size - n;
      m1[p := Header(if p in m1 then m1[p].ptr else 0, n)]
  }

  lemma CutOk(m: Memory, base: nat, free: seq<Extent>, j: nat, n: nat)
    requires ListOk(m, base, free) && 0 < j < |free| && 0 < n <= free[j].size
    ensures free[j - 1].addr in m && free[j].addr in m && ListOk(CutMemory(m, free, j, n), base, Cut(free, j, n))
  {
    var free' := Cut(free, j, n);
    assert LinkAt(m, free, j - 1) && LinkAt(m, free, j);
    forall i, k | 0 <= i < k < |free'|
      ensures Below(free'[i], free'[k])
    {
      var oi, ok := if free[j].size == n && i >= j then i + 1 else i, if free[j].size == n && k >= j then k + 1 else k;
      assert Below(free[oi], free[ok]);
    }
    forall i | 0 <= i < |free'|
      ensures LinkAt(CutMemory(m, free, j, n), free', i)
    {
      CutLinked(m, base, free, j, n, i);
    }
  }

  lemma CutLinked(m: Memory, base: nat, free: seq<Extent>, j: nat, n: nat, i: nat)
    requires ListOk(m, base, free) && 0 < j < |free| && 0 < n <= free[j].size && free[j - 1].addr in m && free[j].addr in m
    requires i < |Cut(free, j, n)|
    ensures LinkAt(CutMemory(m, free, j, n), Cut(free, j, n), i)
  {
    var oi := if free[j].size == n && i >= j then i + 1 else i;
    assert LinkAt(m, free, oi) && LinkAt(m, free, j) && LinkAt(m, free, j - 1);
    assert oi < j ==> Below(free[oi], free[j]);
    assert oi < j - 1 ==> Below(free[oi], free[j - 1]);
    assert j < oi ==> Below(free[j], free[oi]);
    assert j - 1 < oi ==> Below(free[j - 1], free[oi]);
  }

  /** The list loses exactly the units of the block that malloc returns. */
  lemma CutUnits(m: Memory, base: nat, free: seq<Extent>, j: nat, n: nat, u: nat)
    requires ListOk(m, base, free) && 0 < j < |free| && 0 < n <= free[j].size
    ensures InFree(free, u) <==> InFree(Cut(free, j, n), u) || Has(Extent(free[j].addr + free[j].size - n, n), u)
    ensures !(InFree(Cut(free, j, n), u) && Has(Extent(free[j].addr + free[j].size - n, n), u))
  {
    var free' := Cut(free, j, n);
    var e := Extent(free[j].addr + free[j].size - n, n);
    if i :| 0 <= i < |free'| && Has(free'[i], u) {
      var oi := if free[j].size == n && i >= j then i + 1 else i;
      assert Has(free[oi], u);
      assert oi < j ==> Below(free[oi], free[j]);
      assert j < oi ==> Below(free[j], free[oi]);
    }
    if i :| 0 <= i < |free| && Has(free[i], u) {
      if i != j || (free[j].size != n && !Has(e, u)) {
        var i' := if free[j].size == n && i > j then i - 1 else i;
        assert Has(free'[i'], u);
      }
    }
    if Has(e, u) {
      assert Has(free[j], u);
    }
  }
}
