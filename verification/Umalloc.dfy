/** malloc, free and morecore of umalloc.c. */
module Umalloc {
  import opened UmallocList

  /** User addresses end at KERNBASE, 0x80000000 bytes. */
  const LIMIT: nat := 0x1000_0000
  const UINT: nat := 0x1_0000_0000

  datatype Option<T> = None | Some(value: T)

  /** Null; a pointer to nunits-1 units; or the allocator goes on with memory that sbrk did not grant. */
  datatype Result = Null | Block(ap: nat) | Stray

  // ----- requests -----

  /** The units that malloc looks for, computed in uint. */
  function Nunits(nbytes: nat): nat {
    (nbytes + 7) % UINT / 8 + 1
  }

  /** The units that morecore asks for. */
  function Asked(nu: nat): nat {
    if nu < 4096 then 4096 else nu
  }

  /** The number that sbrk receives: nu * sizeof(Header) in uint, read as an int. */
  function SbrkArgument(nu: nat): int {
    var bytes := Asked(nu) * 8 % UINT;
    if bytes < UINT / 2 then bytes else bytes - UINT
  }

  /** A block of Nunits(nbytes) units holds nbytes bytes behind its header exactly if the sum in
      malloc does not wrap. */
  lemma RoomExactly(nbytes: nat)
    requires nbytes < UINT
    ensures 8 * (Nunits(nbytes) - 1) >= nbytes <==> nbytes <= UINT - 8
  {
  }

  lemma RoomFails()
    ensures Nunits(0xffff_ffff) == 1
  {
  }

  /** sbrk is asked for as many bytes as morecore records exactly if the request is below 2 GB. */
  lemma RequestExactly(nbytes: nat)
    requires nbytes < UINT
    ensures var nu := Nunits(nbytes);
            (SbrkArgument(nu) == 8 * Asked(nu) <==> nu < LIMIT) && (SbrkArgument(nu) > 0 <==> nu < LIMIT)
    ensures Nunits(nbytes) < LIMIT <==> nbytes <= 0x7fff_fff0 || nbytes > UINT - 8
  {
  }

  // ----- the heap -----

  ghost function UnitsOf(e: Extent): set<nat> {
    set u: nat | 0 <= u < e.addr + e.size && Has(e, u)
  }

  ghost predicate InAlloc(taken: map<nat, nat>, u: nat) {
    exists a | a in taken :: Has(Extent(a, taken[a]), u)
  }

  ghost predicate AllocOk(m: Memory, base: nat, free: seq<Extent>, taken: map<nat, nat>, a: nat)
    requires a in taken
  {
    taken[a] > 0 && base < a && a in m && m[a].size == taken[a] && Clear(free, Extent(a, taken[a]))
  }

  /** No unit is in both blocks. */
  ghost predicate Apart(a: Extent, b: Extent) {
    a.addr + a.size <= b.addr || b.addr + b.size <= a.addr
  }

  /** The free blocks and the taken blocks share no unit, and together they are the units that sbrk
      granted; all lie between base and brk. */
  ghost predicate Partition(m: Memory, base: nat, free: seq<Extent>, taken: map<nat, nat>, units: set<nat>, brk: nat) {
    && (forall a {:trigger AllocOk(m, base, free, taken, a)} | a in taken :: AllocOk(m, base, free, taken, a))
    && (forall a, b {:trigger taken[a], taken[b]} | a in taken && b in taken && a != b ::
          Apart(Extent(a, taken[a]), Extent(b, taken[b])))
    && (forall u: nat {:trigger u in units} :: u in units <==> InFree(free, u) || InAlloc(taken, u))
    && (forall u | u in units :: base < u < brk)
  }

  /** Every granted unit is in exactly one block, free or taken, and no unit outside is in any. */
  lemma EachUnitOnce(m: Memory, base: nat, free: seq<Extent>, taken: map<nat, nat>, units: set<nat>, brk: nat, u: nat)
    requires ListOk(m, base, free) && Partition(m, base, free, taken, units, brk)
    ensures u in units <==> InFree(free, u) || InAlloc(taken, u)
    ensures !(InFree(free, u) && InAlloc(taken, u))
    ensures forall i, j | 0 <= i < |free| && 0 <= j < |free| && Has(free[i], u) && Has(free[j], u) :: i == j
    ensures forall a, b | a in taken && b in taken && Has(Extent(a, taken[a]), u) && Has(Extent(b, taken[b]), u) :: a == b
  {
    if InAlloc(taken, u) {
      var a :| a in taken && Has(Extent(a, taken[a]), u);
      assert AllocOk(m, base, free, taken, a);
    }
    forall i, j | 0 <= i < |free| && 0 <= j < |free| && Has(free[i], u) && Has(free[j], u)
      ensures i == j
    {
      assert i < j ==> Below(free[i], free[j]);
      assert j < i ==> Below(free[j], free[i]);
    }
  }

  /** A free block that is written into the list: it joins the free units and leaves the rest alone. */
  lemma {:induction false} InsertPartition(m: Memory, base: nat, free: seq<Extent>, taken: map<nat, nat>, units: set<nat>, brk: nat, e: Extent)
    requires ListOk(m, base, free) && Partition(m, base, free, taken, units, brk)
    requires base < e.addr && e.size > 0 && e.addr !in taken && Clear(free, e)
    requires forall a | a in taken :: Apart(e, Extent(a, taken[a]))
    ensures free[Place(free, e.addr)].addr in m
    ensures var t := Place(free, e.addr);
            var units' := units + UnitsOf(e);
            Partition(FreedMemory(m, free, t, e), base, Inserted(free, t, e), taken, units', if brk < e.addr + e.size then e.addr + e.size else brk)
  {
    var t := Place(free, e.addr);
    assert LinkAt(m, free, t);
    var m', free' := FreedMemory(m, free, t, e), Inserted(free, t, e);
    forall u: nat
      ensures InFree(free', u) <==> InFree(free, u) || Has(e, u)
    {
      InsertedUnits(m, base, free, e, u);
    }
    forall a | a in taken
      ensures AllocOk(m', base, free', taken, a)
    {
      assert AllocOk(m, base, free, taken, a);
      NotAHeader(m, base, free, Extent(a, taken[a]), t);
    }
  }

  lemma NotAHeader(m: Memory, base: nat, free: seq<Extent>, e: Extent, t: nat)
    requires ListOk(m, base, free) && t < |free| && base < e.addr && e.size > 0 && Clear(free, e)
    ensures e.addr != free[t].addr
  {
    if e.addr == free[t].addr {
      assert Has(e, e.addr) && Has(free[t], e.addr);
    }
  }

  /** free: the block leaves the taken ones. */
  lemma {:induction false} FreePartition(m: Memory, base: nat, free: seq<Extent>, taken: map<nat, nat>, units: set<nat>, brk: nat, bp: nat)
    requires ListOk(m, base, free) && Partition(m, base, free, taken, units, brk) && bp in taken
    ensures AllocOk(m, base, free, taken, bp) && free[Place(free, bp)].addr in m
    ensures var e, t := Extent(bp, taken[bp]), Place(free, bp);
            Partition(FreedMemory(m, free, t, e), base, Inserted(free, t, e), taken - {bp}, units, brk)
  {
    assert AllocOk(m, base, free, taken, bp);
    var e := Extent(bp, taken[bp]);
    var rest := taken - {bp};
    var left := units - UnitsOf(e);
    forall a | a in rest
      ensures AllocOk(m, base, free, rest, a) && Apart(e, Extent(a, rest[a]))
    {
      assert AllocOk(m, base, free, taken, a);
    }
    forall u: nat
      ensures u in left <==> InFree(free, u) || InAlloc(rest, u)
    {
      RestUnits(taken, bp, u);
      assert u in units <==> InFree(free, u) || InAlloc(taken, u);
    }
    assert Has(e, bp) && bp in units && bp + e.size - 1 in units by {
      assert Has(e, bp) && Has(e, bp + e.size - 1);
      assert InAlloc(taken, bp) && InAlloc(taken, bp + e.size - 1);
    }
    InsertPartition(m, base, free, rest, left, brk, e);
    assert left + UnitsOf(e) == units by {
      forall u | Has(e, u)
        ensures u in units
      {
        assert InAlloc(taken, u);
      }
    }
  }

  lemma RestUnits(taken: map<nat, nat>, bp: nat, u: nat)
    requires bp in taken && forall a | a in taken && a != bp :: Apart(Extent(bp, taken[bp]), Extent(a, taken[a]))
    ensures InAlloc(taken, u) <==> InAlloc(taken - {bp}, u) || Has(Extent(bp, taken[bp]), u)
    ensures !(InAlloc(taken - {bp}, u) && Has(Extent(bp, taken[bp]), u))
  {
    var rest := taken - {bp};
    if InAlloc(rest, u) {
      var a :| a in rest && Has(Extent(a, rest[a]), u);
      assert Has(Extent(a, taken[a]), u);
    }
    if a :| a in taken && Has(Extent(a, taken[a]), u) && a != bp {
      assert Has(Extent(a, rest[a]), u);
    }
  }

  /** malloc: the end of free block j becomes an taken block. */
  lemma CutPartition(m: Memory, base: nat, free: seq<Extent>, taken: map<nat, nat>, units: set<nat>, brk: nat, j: nat, n: nat)
    requires ListOk(m, base, free) && Partition(m, base, free, taken, units, brk) && 0 < j < |free| && 0 < n <= free[j].size
    ensures free[j - 1].addr in m && free[j].addr in m
    ensures var a := free[j].addr + free[j].size - n;
            && a !in taken
            && Partition(CutMemory(m, free, j, n), base, Cut(free, j, n), taken[a := n], units, brk)
  {
    assert LinkAt(m, free, j - 1) && LinkAt(m, free, j);
    var a := free[j].addr + free[j].size - n;
    var e, free', m', taken' := Extent(a, n), Cut(free, j, n), CutMemory(m, free, j, n), taken[a := n];
    assert Below(free[j - 1], free[j]) && Below(free[0], free[j]);
    forall u: nat
      ensures (InFree(free, u) <==> InFree(free', u) || Has(e, u)) && !(InFree(free', u) && Has(e, u))
    {
      CutUnits(m, base, free, j, n, u);
    }
    forall b | b in taken
      ensures b != a && Apart(e, Extent(b, taken[b])) && AllocOk(m', base, free', taken', b)
    {
      assert AllocOk(m, base, free, taken, b);
      CutKeepsBlock(m, base, free, taken, j, n, b);
    }
    assert AllocOk(m', base, free', taken', a);
    assert taken' - {a} == taken;
    forall u: nat
      ensures u in units <==> InFree(free', u) || InAlloc(taken', u)
    {
      RestUnits(taken', a, u);
      assert u in units <==> InFree(free, u) || InAlloc(taken, u);
    }
  }

  /** A taken block does not notice that units are cut off a free one. */
  lemma CutKeepsBlock(m: Memory, base: nat, free: seq<Extent>, taken: map<nat, nat>, j: nat, n: nat, b: nat)
    requires ListOk(m, base, free) && 0 < j < |free| && 0 < n <= free[j].size && free[j - 1].addr in m && free[j].addr in m
    requires b in taken && AllocOk(m, base, free, taken, b)
    ensures var a := free[j].addr + free[j].size - n;
            b != a && Apart(Extent(a, n), Extent(b, taken[b])) && AllocOk(CutMemory(m, free, j, n), base, Cut(free, j, n), taken[a := n], b)
  {
    var a := free[j].addr + free[j].size - n;
    forall u: nat
      ensures Has(Extent(a, n), u) || InFree(Cut(free, j, n), u) ==> InFree(free, u)
    {
      CutUnits(m, base, free, j, n, u);
    }
    NotAHeader(m, base, free, Extent(b, taken[b]), j);
    NotAHeader(m, base, free, Extent(b, taken[b]), j - 1);
    ClearApart(free, Extent(b, taken[b]), Extent(a, n));
  }

  /** Blocks without a common unit do not overlap. */
  lemma ClearApart(free: seq<Extent>, b: Extent, e: Extent)
    requires Clear(free, b) && e.size > 0 && b.size > 0 && forall u | Has(e, u) :: InFree(free, u)
    ensures Apart(e, b)
  {
    if !Apart(e, b) {
      var u := if e.addr < b.addr then b.addr else e.addr;
      assert Has(e, u) && Has(b, u);
    }
  }

  // ----- going around the list -----

  /** The steps from position a to position b of a circular list of n blocks. */
  function Steps(n: nat, a: nat, b: nat): (d: nat)
    requires a < n && b < n
  {
    if a <= b then b - a else b + n - a
  }

  /** Some block has n units. */
  ghost predicate Fits(free: seq<Extent>, n: nat) {
    exists i | 0 <= i < |free| :: free[i].size >= n
  }

  /** a is the end of the first block after position at that has n units, cut off the list. */
  ghost predicate NextFit(free: seq<Extent>, at: nat, n: nat, a: nat, free': seq<Extent>)
    requires at < |free|
  {
    exists i {:trigger Passed(free, i, at, n)} | 0 <= i < |free| && free[i].size >= n ::
      Passed(free, i, at, n) && a == free[i].addr + free[i].size - n && free' == Cut(free, i, n)
  }

  lemma Served(free: seq<Extent>, at: nat, n: nat, i: nat)
    requires i < |free| && at < |free| && free[i].size >= n && Passed(free, i, at, n)
    ensures Fits(free, n) && NextFit(free, at, n, free[i].addr + free[i].size - n, Cut(free, i, n))
  {
  }

  /** The blocks from the one after position at up to the one before position i are smaller than n. */
  ghost predicate Passed(free: seq<Extent>, i: nat, at: nat, n: nat)
    requires i < |free| && at < |free|
  {
    forall x | 0 <= x < |free| && Steps(|free|, i, at) < Steps(|free|, x, at) :: free[x].size < n
  }

  lemma NonePassed(free: seq<Extent>, at: nat, n: nat)
    requires at < |free|
    ensures Passed(free, Next(at, |free|), at, n)
  {
  }

  lemma OnePassed(free: seq<Extent>, i: nat, at: nat, n: nat)
    requires i < |free| && at < |free| && Passed(free, i, at, n) && free[i].size < n
    ensures if i == at then !Fits(free, n)
            else Passed(free, Next(i, |free|), at, n) && Steps(|free|, Next(i, |free|), at) < Steps(|free|, i, at)
  {
  }

  /** On the way from position i around to at lies block j, with n units. */
  ghost predicate Ahead(free: seq<Extent>, i: nat, j: nat, at: nat, n: nat)
    requires i < |free| && at < |free|
  {
    j < |free| && free[j].size >= n && Steps(|free|, i, j) <= Steps(|free|, i, at)
  }

  lemma AllAhead(free: seq<Extent>, j: nat, at: nat, n: nat)
    requires j < |free| && at < |free| && free[j].size >= n
    ensures Ahead(free, Next(at, |free|), j, at, n)
  {
  }

  lemma StillAhead(free: seq<Extent>, i: nat, j: nat, at: nat, n: nat)
    requires i < |free| && at < |free| && Ahead(free, i, j, at, n) && free[i].size < n
    ensures i != at && Ahead(free, Next(i, |free|), j, at, n) && Steps(|free|, Next(i, |free|), j) < Steps(|free|, i, j)
  {
  }

  class Allocator {
    const base: nat
    /** 0 for the null pointer. */
    var freep: nat
    var mem: Memory
    /** The free list from base on, and the position of freep in it. */
    ghost var free: seq<Extent>
    ghost var at: nat
    /** The sizes of the blocks that the program holds, by the address of their header. */
    ghost var taken: map<nat, nat>
    /** The units that sbrk has granted, all below brk. */
    ghost var units: set<nat>
    ghost var brk: nat

    ghost predicate Valid()
      reads this
    {
      && 0 < base < brk <= LIMIT
      && (freep == 0 ==> free == [] && taken == map[] && units == {})
      && (freep != 0 ==>
            ListOk(mem, base, free) && at < |free| && freep == free[at].addr && Partition(mem, base, free, taken, units, brk))
    }

    constructor (base: nat, brk: nat)
      requires 0 < base < brk <= LIMIT
      ensures Valid() && taken == map[] && units == {} && this.base == base && this.brk == brk
    {
      this.base, this.brk := base, brk;
      freep, mem := 0, map[];
      free, at, taken, units := [], 0, map[], {};
    }

    /** free's search: the block after which address bp belongs. */
    method FindPlace(bp: nat) returns (p: nat)
      requires ListOk(mem, base, free) && at < |free| && freep == free[at].addr && base < bp && forall i | 0 <= i < |free| :: free[i].addr != bp
      ensures p == free[Place(free, bp)].addr
    {
      ghost var t := Place(free, bp);
      ghost var i := at;
      p := freep;
      assert LinkAt(mem, free, i);
      while !(bp > p && bp < mem[p].ptr)
        invariant 0 <= i < |free| && p == free[i].addr && LinkAt(mem, free, i)
        decreases Steps(|free|, i, t)
      {
        Order(mem, base, free, i, bp);
        if p >= mem[p].ptr && (bp > p || bp < mem[p].ptr) {
          return;
        }
        i := Next(i, |free|);
        p := mem[p].ptr;
        assert LinkAt(mem, free, i);
      }
      Order(mem, base, free, i, bp);
    }

    /** The end of free: block e goes behind block t. */
    method Insert(p: nat, bp: nat, ghost t: nat, ghost e: Extent)
      requires t < |free| && p == free[t].addr && p in mem && mem[p] == Header(free[Next(t, |free|)].addr, free[t].size)
      requires e.addr == bp && bp in mem && mem[bp].size == e.size && bp != p && (t + 1 == |free| ==> bp + e.size != free[0].addr)
      requires var q := free[Next(t, |free|)]; q.addr in mem && mem[q.addr] == Header(free[Next(Next(t, |free|), |free|)].addr, q.size) && q.addr != bp
      modifies this`mem
      ensures mem == FreedMemory(old(mem), free, t, e)
    {
      var next := mem[p].ptr;
      if bp + mem[bp].size == next {
        mem := mem[bp := Header(mem[next].ptr, mem[bp].size + mem[next].size)];
      } else {
        mem := mem[bp := Header(next, mem[bp].size)];
      }
      if p + mem[p].size == bp {
        mem := mem[p := Header(mem[bp].ptr, mem[p].size + mem[bp].size)];
      } else {
        mem := mem[p := Header(bp, mem[p].size)];
      }
    }

    /** free on a block that is not on the list. */
    method FreeBlock(bp: nat)
      requires base > 0 && ListOk(mem, base, free) && at < |free| && freep == free[at].addr
      requires base < bp && bp in mem && mem[bp].size > 0 && Clear(free, Extent(bp, mem[bp].size))
      modifies this`freep, this`mem, this`free, this`at
      ensures var e, t := Extent(bp, old(mem)[bp].size), Place(old(free), bp);
              && old(free)[t].addr in old(mem)
              && mem == FreedMemory(old(mem), old(free), t, e) && free == Inserted(old(free), t, e)
              && ListOk(mem, base, free) && at == t < |free| && freep == free[t].addr != 0
    {
      ghost var e := Extent(bp, mem[bp].size);
      ghost var t := Place(free, bp);
      Surroundings(mem, base, free, e);
      InsertedOk(mem, base, free, e);
      var p := FindPlace(bp);
      assert t > 0 ==> Below(free[0], free[t]);
      Insert(p, bp, t, e);
      freep := p;
      free, at := Inserted(free, t, e), t;
    }

    /** free(ap): the block returns to the list, joined with the free blocks it touches. */
    method Free(ap: nat)
      requires Valid() && ap > 0 && ap - 1 in taken
      modifies this`freep, this`mem, this`free, this`at, this`taken
      ensures Valid() && taken == old(taken) - {ap - 1}
      ensures forall u: nat :: InFree(free, u) <==> InFree(old(free), u) || Has(Extent(ap - 1, old(taken)[ap - 1]), u)
    {
      assert |free| > 0 && free[0].addr == base;
      hide ListOk;
      hide Partition;
      hide InFree;
      hide FreedMemory;
      hide Inserted;
      FreePartition(mem, base, free, taken, units, brk, ap - 1);
      ghost var e := Extent(ap - 1, taken[ap - 1]);
      forall u: nat
        ensures InFree(Inserted(free, Place(free, e.addr), e), u) <==> InFree(free, u) || Has(e, u)
      {
        InsertedUnits(mem, base, free, e, u);
      }
      FreeBlock(ap - 1);
      taken := taken - {ap - 1};
    }

    /** hp->s.size = n, at or above all memory in use. */
    method WriteSize(hp: nat, n: nat)
      requires Valid() && freep != 0 && brk <= hp
      modifies this`mem
      ensures Valid() && hp in mem && mem[hp].size == n
    {
      hide ListOk;
      hide Partition;
      var ptr := if hp in mem then mem[hp].ptr else 0;
      NewHeader(mem, base, free, taken, units, brk, hp, Header(ptr, n));
      mem := mem[hp := Header(ptr, n)];
    }

    /** The end of morecore: n new units at hp become a free block; block j of the list then holds them. */
    method AddStretch(hp: nat, n: nat) returns (ghost j: nat)
      requires Valid() && freep != 0 && n > 0 && brk <= hp && hp + n <= LIMIT
      modifies this`freep, this`mem, this`free, this`at, this`units, this`brk
      ensures Valid() && freep != 0 && units == old(units) + UnitsOf(Extent(hp, n))
      ensures j < |free| && free[j].size >= n
    {
      hide Allocator.Valid;
      hide UnitsOf;
      WriteSize(hp, n);
      j := JoinStretch(hp, n);
    }

    /** morecore's call of free. */
    method JoinStretch(hp: nat, n: nat) returns (ghost j: nat)
      requires Valid() && freep != 0 && n > 0 && brk <= hp && hp + n <= LIMIT && hp in mem && mem[hp].size == n
      modifies this`freep, this`mem, this`free, this`at, this`units, this`brk
      ensures Valid() && freep != 0 && units == old(units) + UnitsOf(Extent(hp, n))
      ensures j < |free| && free[j].size >= n
    {
      assert |free| > 0 && free[0].addr == base;
      hide ListOk;
      hide Partition;
      hide FreedMemory;
      hide Inserted;
      hide Clear;
      hide Apart;
      hide JoinsDown;
      hide UnitsOf;
      ghost var e := Extent(hp, n);
      ghost var t := Place(free, hp);
      j := if JoinsDown(free, t, e) then t else t + 1;
      NewStretch(mem, base, free, taken, units, brk, e);
      InsertPartition(mem, base, free, taken, units, brk, e);
      InsertedFits(mem, base, free, e);
      FreeBlock(hp);
      units, brk := units + UnitsOf(e), hp + n;
    }

    /** morecore: answer is what sbrk returns, None for -1.  A request that wraps is not carried out. */
    method Morecore(nu: nat, answer: Option<nat>) returns (r: Result, ghost j: nat)
      requires Valid() && freep != 0 && 0 < nu <= 0x2000_0000
      requires answer.Some? ==> brk <= answer.value && (nu < LIMIT ==> answer.value + Asked(nu) <= LIMIT)
      modifies this`freep, this`mem, this`free, this`at, this`units, this`brk
      ensures r == Null <==> answer == None
      ensures r == Stray <==> answer.Some? && SbrkArgument(nu) <= 0
      ensures r == Null ==> Valid() && freep == old(freep) && free == old(free) && units == old(units)
      ensures r.Block? ==> Valid() && r.ap == freep != 0 && units == old(units) + UnitsOf(Extent(answer.value, Asked(nu)))
      ensures r.Block? ==> j < |free| && free[j].size >= nu
    {
      hide Allocator.Valid;
      hide UnitsOf;
      j := 0;
      if answer == None {
        return Null, 0;
      }
      if SbrkArgument(nu) <= 0 {
        return Stray, 0;
      }
      j := AddStretch(answer.value, Asked(nu));
      r := Block(freep);
    }

    /** The end of malloc: block i is large enough; prevp is the block before it. */
    method Take(prevp: nat, p: nat, nunits: nat, ghost i: nat) returns (ap: nat)
      requires Cursor(prevp, p, i) && 0 < nunits <= free[i].size
      modifies this`freep, this`mem, this`free, this`at, this`taken
      ensures Valid() && freep != 0 && ap > 0 && ap - 1 !in old(taken) && taken == old(taken)[ap - 1 := nunits]
      ensures forall u | Has(Extent(ap - 1, nunits), u) :: InFree(old(free), u)
      ensures ap - 1 == old(free)[i].addr + old(free)[i].size - nunits && free == Cut(old(free), i, nunits) && units == old(units)
    {
      CutFacts(prevp, p, nunits, i);
      hide ListOk;
      hide Partition;
      hide Cut;
      hide InFree;
      ghost var m := mem;
      var q := p;
      if mem[p].size == nunits {
        mem := mem[prevp := Header(mem[p].ptr, mem[prevp].size)];
      } else {
        mem := mem[p := Header(mem[p].ptr, mem[p].size - nunits)];
        q := p + mem[p].size;
        mem := mem[q := Header(if q in mem then mem[q].ptr else 0, nunits)];
      }
      assert mem == CutMemory(m, free, i, nunits);
      freep := prevp;
      free, at, taken := Cut(free, i, nunits), i - 1, taken[q := nunits];
      ap := q + 1;
    }

    /** What malloc may rely on at block i, and what cutting n units off it keeps. */
    lemma CutFacts(prevp: nat, p: nat, n: nat, i: nat)
      requires Cursor(prevp, p, i) && 0 < n <= free[i].size
      ensures i > 0 && prevp == free[i - 1].addr && prevp in mem && prevp > 0 && p == free[i].addr && p in mem && mem[p].size == free[i].size
      ensures ListOk(CutMemory(mem, free, i, n), base, Cut(free, i, n)) && i - 1 < |Cut(free, i, n)| && Cut(free, i, n)[i - 1].addr == prevp
      ensures var a := p + free[i].size - n;
              && a !in taken && Partition(CutMemory(mem, free, i, n), base, Cut(free, i, n), taken[a := n], units, brk)
              && forall u | Has(Extent(a, n), u) :: InFree(free, u)
    {
      Here(0);
      CutOk(mem, base, free, i, n);
      CutPartition(mem, base, free, taken, units, brk, i, n);
      assert LinkAt(mem, free, i) && LinkAt(mem, free, i - 1);
      assert Below(free[i - 1], free[i]) && (i > 1 ==> Below(free[0], free[i - 1]));
      hide Partition;
      forall u | Has(Extent(p + free[i].size - n, n), u)
        ensures InFree(free, u)
      {
        CutUnits(mem, base, free, i, n, u);
      }
    }

    /** malloc; answer is what sbrk returns if morecore calls it. */
    method Malloc(nbytes: nat, answer: Option<nat>) returns (r: Result)
      requires Valid() && nbytes < UINT
      requires answer.Some? ==> brk <= answer.value && (Nunits(nbytes) < LIMIT ==> answer.value + Asked(Nunits(nbytes)) <= LIMIT)
      modifies this
      ensures r != Stray ==> Valid()
      ensures r == Stray <==> answer.Some? && Nunits(nbytes) >= LIMIT
      ensures r.Block? ==> r.ap > 0 && r.ap - 1 !in old(taken) && taken == old(taken)[r.ap - 1 := Nunits(nbytes)]
      ensures r.Block? && Fits(old(free), Nunits(nbytes)) ==>
                units == old(units) && brk == old(brk) && old(at) < |old(free)| && NextFit(old(free), old(at), Nunits(nbytes), r.ap - 1, free)
      ensures r.Block? && !Fits(old(free), Nunits(nbytes)) ==>
                answer.Some? && units == old(units) + UnitsOf(Extent(answer.value, Asked(Nunits(nbytes)))) && units != old(units)
      ensures r == Null ==> taken == old(taken) && units == old(units) && !Fits(free, Nunits(nbytes))
      ensures r == Null <==> answer == None && !Fits(old(free), Nunits(nbytes))
    {
      hide Allocator.Valid;
      hide Nunits;
      hide Passed;
      hide UnitsOf;
      hide Asked;
      hide SbrkArgument;
      hide Allocator.Cursor;
      hide NextFit;
      hide Cut;
      var nunits := Nunits(nbytes);
      RequestExactly(nbytes);
      NunitsRange(nbytes);
      hide Fits;
      hide Steps;
      hide Ahead;
      hide Next;
      if freep == 0 {
        Initialise();
        NoFit(nunits);
      }
      assert Fits(free, nunits) == Fits(old(free), nunits) && (Fits(free, nunits) ==> free == old(free) && at == old(at));
      var prevp := freep;
      FromFreep();
      var p := mem[prevp].ptr;
      ghost var i := Next(at, |free|);
      ghost var grown, j: nat := false, at;
      NonePassed(free, at, nunits);
      ghost var start, pos := free, at;
      while true
        invariant Cursor(prevp, p, i) && taken == old(taken)
        invariant j < |free|
        invariant grown ==> answer.Some? && nunits < LIMIT && Ahead(free, i, j, at, nunits)
        invariant grown ==> units == old(units) + UnitsOf(Extent(answer.value, Asked(nunits))) && units != old(units) && !Fits(start, nunits)
        invariant !grown ==> units == old(units) && brk == old(brk) && free == start && at == pos
        invariant !grown ==> Passed(free, i, at, nunits)
        decreases if grown then 0 else 1, if grown then Steps(|free|, i, j) else Steps(|free|, i, at)
      {
        Forward(prevp, p, i);
        if mem[p].size >= nunits {
          if !grown {
            Served(free, at, nunits, i);
          }
          var ap := Take(prevp, p, nunits, i);
          return Block(ap);
        }
        if grown {
          StillAhead(free, i, j, at, nunits);
        } else {
          OnePassed(free, i, at, nunits);
        }
        if p == freep {
          ghost var fit;
          if answer.Some? && nunits < LIMIT {
            NewUnits(Extent(answer.value, Asked(nunits)));
          }
          r, fit := Morecore(nunits, answer);
          if !r.Block? {
            return;
          }
          grown, j := true, fit;
          FromFreep();
          AllAhead(free, j, at, nunits);
          i := at;
          p := r.ap;
        }
        prevp := p;
        p := mem[p].ptr;
        i := Next(i, |free|);
      }
    }

    /** p is block i of the list, and prevp the block before it. */
    ghost predicate Cursor(prevp: nat, p: nat, i: nat)
      reads this
      ensures Cursor(prevp, p, i) ==> Valid() && freep != 0 && at < |free| && i < |free|
    {
      Valid() && freep != 0 && i < |free| && p == free[i].addr && (i > 0 ==> prevp == free[i - 1].addr)
    }

    /** What sbrk grants was not granted before. */
    lemma NewUnits(e: Extent)
      requires Valid() && freep != 0 && brk <= e.addr && e.size > 0
      ensures units + UnitsOf(e) != units
    {
      assert e.addr in UnitsOf(e) && e.addr !in units;
    }

    /** Before the first stretch of memory nothing fits. */
    lemma NoFit(n: nat)
      requires n > 0
      ensures !Fits([], n) && !Fits([Extent(base, 0)], n)
    {
    }

    lemma FromFreep()
      requires Valid() && freep != 0
      ensures freep in mem && at < |free| && Cursor(freep, mem[freep].ptr, Next(at, |free|))
    {
      hide Allocator.Valid;
      Here(at);
    }

    lemma Forward(prevp: nat, p: nat, i: nat)
      requires Cursor(prevp, p, i)
      ensures p in mem && mem[p].size == free[i].size < LIMIT && (p == freep <==> i == at) && Cursor(p, mem[p].ptr, Next(i, |free|))
    {
      hide Allocator.Valid;
      Here(i);
      Here(0);
    }

    /** The first call of malloc makes base the only block of the list. */
    method Initialise()
      requires Valid() && freep == 0
      modifies this`freep, this`mem, this`free, this`at
      ensures Valid() && freep != 0 && at < |free|
      ensures old(free) == [] && free == [Extent(base, 0)]
    {
      mem := mem[base := Header(base, 0)];
      freep := base;
      free, at := [Extent(base, 0)], 0;
      OnlyBase(mem, base, brk);
    }

    /** What malloc reads at position i of the list. */
    lemma Here(i: nat)
      requires Valid() && freep != 0 && (i < |free| || i == at)
      ensures i < |free| && LinkAt(mem, free, i) && at < |free| && freep == free[at].addr && free[i].size < LIMIT && free[0].size == 0
      ensures free[i].addr == freep ==> i == at
    {
      BlockBound(mem, base, free, taken, units, brk, i);
      if free[i].addr == freep {
        SameAddress(mem, base, free, i, at);
      }
    }
  }

  lemma NunitsRange(nbytes: nat)
    ensures 0 < Nunits(nbytes) <= 0x2000_0000
  {
  }

  lemma OnlyBase(m: Memory, base: nat, brk: nat)
    requires base in m && m[base] == Header(base, 0)
    ensures ListOk(m, base, [Extent(base, 0)]) && Partition(m, base, [Extent(base, 0)], map[], {}, brk)
  {
  }

  lemma SameAddress(m: Memory, base: nat, free: seq<Extent>, i: nat, j: nat)
    requires ListOk(m, base, free) && i < |free| && j < |free| && free[i].addr == free[j].addr
    ensures i == j
  {
    assert i < j ==> Below(free[i], free[j]);
    assert j < i ==> Below(free[j], free[i]);
  }

  /** Where block e went, once it is on the list. */
  lemma {:induction false} InsertedFits(m: Memory, base: nat, free: seq<Extent>, e: Extent)
    requires ListOk(m, base, free) && base < e.addr && e.size > 0 && Clear(free, e)
    ensures var t := Place(free, e.addr);
            var j := if JoinsDown(free, t, e) then t else t + 1;
            j < |Inserted(free, t, e)| && Inserted(free, t, e)[j].size >= e.size
  {
  }

  /** Every free block is smaller than the address space. */
  lemma BlockBound(m: Memory, base: nat, free: seq<Extent>, taken: map<nat, nat>, units: set<nat>, brk: nat, i: nat)
    requires ListOk(m, base, free) && Partition(m, base, free, taken, units, brk) && i < |free| && base < brk
    ensures base <= free[i].addr && free[i].addr + free[i].size <= brk
  {
    assert i > 0 ==> Below(free[0], free[i]);
    if free[i].size > 0 {
      var u := free[i].addr + free[i].size - 1;
      assert Has(free[i], u);
      assert InFree(free, u) && u in units;
    }
  }

  /** A new stretch of memory at or above brk touches no block. */
  lemma NewStretch(m: Memory, base: nat, free: seq<Extent>, taken: map<nat, nat>, units: set<nat>, brk: nat, e: Extent)
    requires ListOk(m, base, free) && Partition(m, base, free, taken, units, brk) && base < brk <= e.addr && e.size > 0
    ensures Clear(free, e) && e.addr !in taken && forall a | a in taken :: Apart(e, Extent(a, taken[a]))
  {
    forall u | Has(e, u)
      ensures !InFree(free, u)
    {
      assert u in units <==> InFree(free, u) || InAlloc(taken, u);
    }
    forall a | a in taken
      ensures a + taken[a] <= brk && a < brk
    {
      assert AllocOk(m, base, free, taken, a);
      var u := a + taken[a] - 1;
      assert Has(Extent(a, taken[a]), u);
      assert InAlloc(taken, u) && u in units;
    }
  }

  /** A header written above brk disturbs nothing. */
  lemma NewHeader(m: Memory, base: nat, free: seq<Extent>, taken: map<nat, nat>, units: set<nat>, brk: nat, hp: nat, h: Header)
    requires ListOk(m, base, free) && Partition(m, base, free, taken, units, brk) && base < brk <= hp
    ensures ListOk(m[hp := h], base, free) && Partition(m[hp := h], base, free, taken, units, brk)
  {
    var m' := m[hp := h];
    NewStretch(m, base, free, taken, units, brk, Extent(hp, 1));
    forall i | 0 <= i < |free|
      ensures LinkAt(m', free, i)
    {
      assert LinkAt(m, free, i);
      NotAHeader(m, base, free, Extent(hp, 1), i);
    }
    forall a | a in taken
      ensures AllocOk(m', base, free, taken, a)
    {
      assert AllocOk(m, base, free, taken, a);
    }
  }

  /** What the search condition of free says about a position of the list. */
  lemma {:induction false} Order(m: Memory, base: nat, free: seq<Extent>, i: nat, bp: nat)
    requires ListOk(m, base, free) && i < |free| && base < bp && forall x | 0 <= x < |free| :: free[x].addr != bp
    ensures var p, q, t := free[i].addr, free[Next(i, |free|)].addr, Place(free, bp);
            && ((p < bp < q) || (p >= q && (bp > p || bp < q)) <==> i == t)
            && (i != t ==> Steps(|free|, Next(i, |free|), t) < Steps(|free|, i, t))
  {
    var t := Place(free, bp);
    assert i < t ==> Below(free[i], free[t]);
    assert t < i ==> Below(free[t], free[i]);
    assert i + 1 < |free| ==> Below(free[i], free[i + 1]);
    assert i + 1 < t ==> Below(free[i + 1], free[t]);
    assert t + 1 < i ==> Below(free[t + 1], free[i]);
    assert i > 0 ==> Below(free[0], free[i]);
  }

  lemma {:induction false} Surroundings(m: Memory, base: nat, free: seq<Extent>, e: Extent)
    requires ListOk(m, base, free) && base < e.addr && e.size > 0 && Clear(free, e)
    ensures var t := Place(free, e.addr);
            && LinkAt(m, free, t) && LinkAt(m, free, Next(t, |free|))
            && forall i | 0 <= i < |free| :: free[i].addr != e.addr
  {
    var t := Place(free, e.addr);
    forall i | 0 <= i < |free|
      ensures free[i].addr != e.addr
    {
      NotAHeader(m, base, free, e, i);
    }
  }
}
