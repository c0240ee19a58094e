/** kalloc.c and the page tables of vm.c as code.  A pointer to a page is its frame number, 0 is null. */
module VmCode {
  import opened VmModel
  import opened VmSpace
  import opened VmCopy
  import opened VmTables

  datatype Outcome = Done | NoMemory | Panic

  class Machine {
    var mem: Memory
    /** kmem.freelist */
    var freelist: nat
    /** The first frame behind the kernel; kfree panics below it. */
    const first: nat
    ghost var use: seq<Use>
    ghost var free: seq<nat>

    ghost function View(): Phys
      reads this
    {
      Phys(mem, use)
    }

    ghost predicate Valid()
      reads this
    {
      && VmOk(View()) && PoolOk(View(), freelist, free) && 0 < first <= |mem|
      && (forall f | 0 <= f < first :: use[f] == Kernel)
    }

    /** The page is the kernel's, to be used for anything. */
    ghost predicate Spare(f: nat)
      reads this
    {
      first <= f < |use| && use[f] == Kernel
    }

    /** A machine whose memory is all the kernel's, before kinit1. */
    constructor (mem: Memory, first: nat)
      requires 0 < first <= |mem|
      ensures Valid() && this.mem == mem && this.first == first && use == seq(|mem|, i => Kernel) && free == []
    {
      this.mem, this.first, freelist := mem, first, 0;
      use, free := seq(|mem|, i => Kernel), [];
    }

    // ----- kalloc.c -----

    /** kfree */
    method Kfree(f: nat) returns (panicked: bool)
      requires 0 < first
      modifies this`mem, this`freelist
      ensures panicked <==> !(first <= f < |old(mem)|)
      ensures if panicked then mem == old(mem) && freelist == old(freelist)
              else mem == old(mem)[f := Junk(old(freelist))] && freelist == f
    {
      if f < first || f >= |mem| {
        return true;
      }
      mem := mem[f := seq(1024, i => 0x0101_0101)];
      mem := mem[f := mem[f][0 := freelist]];
      freelist := f;
      panicked := false;
      assert mem == old(mem)[f := Junk(old(freelist))];
    }

    /** kfree of a page that is in no address space: it joins the pool, without a panic. */
    method FreePage(f: nat)
      requires Valid() && first <= f < |use| && use[f] == Kernel
      modifies this`mem, this`freelist, this`use, this`free
      ensures Valid() && use == old(use)[f := Free] && |free| == |old(free)| + 1 && |mem| == |old(mem)| && (forall g | 0 <= g < |mem| && g != f :: mem[g] == old(mem)[g])
      ensures forall d, v | 0 <= d < |use| && use[d] == Dir && 0 <= v < SPACE :: Pte(mem, d, v) == Pte(old(mem), d, v)
    {
      ghost var s := View();
      PoolPush(s, freelist, free, f);
      var panicked := Kfree(f);
      use, free := use[f := Free], [f] + free;
      LooseChange(s, View(), f);
    }

    /** freerange of the addresses from vstart to vend: the whole pages between them join the pool. */
    method Freerange(vstart: nat, vend: nat)
      requires Valid() && 4096 * first <= vstart && vend <= 4096 * |use|
      requires forall f | 0 <= f < |use| && vstart <= 4096 * f < vend :: use[f] == Kernel
      modifies this`mem, this`freelist, this`use, this`free
      ensures Valid() && |use| == |old(use)|
      ensures forall f | 0 <= f < |use| :: use[f] == if vstart <= 4096 * f && 4096 * f + 4096 <= vend then Free else old(use)[f]
      ensures |free| == |old(free)| + (if vend / 4096 <= Pages(vstart) then 0 else vend / 4096 - Pages(vstart))
    {
      hide VmOk;
      hide PoolOk;
      PagesAre(vstart);
      hide Pages;
      var p := (vstart + 4095) / 4096 * 4096;
      ghost var f := Pages(vstart);
      while p + 4096 <= vend
        invariant p == 4096 * f && p >= vstart && (p <= vend || f == Pages(vstart)) && Valid() && |use| == |old(use)|
        invariant forall g | 0 <= g < |use| :: use[g] == if vstart <= 4096 * g < p then Free else old(use)[g]
        invariant f >= Pages(vstart) && |free| == |old(free)| + f - Pages(vstart)
        decreases vend - p
      {
        PageOf(f);
        FreePage(p / 4096);
        p, f := p + 4096, f + 1;
      }
    }

    /** kalloc */
    method Kalloc() returns (f: nat)
      requires Valid()
      modifies this`freelist, this`use, this`free
      ensures Valid() && (f == 0 <==> forall g | 0 <= g < |old(use)| :: old(use)[g] != Free)
      ensures (f == 0 <==> old(free) == []) && |free| == if f == 0 then 0 else |old(free)| - 1
      ensures if f == 0 then use == old(use) else first <= f < |use| && old(use)[f] == Free && use == old(use)[f := Kernel]
    {
      ghost var s := View();
      f := freelist;
      assert free != [] ==> FreeAt(s, free, 0);
      if f != 0 {
        PoolPop(s, freelist, free);
        freelist := mem[f][0];
        use, free := use[f := Kernel], free[1..];
        LooseChange(s, View(), f);
      }
    }

    // ----- walkpgdir and mappages -----

    /** walkpgdir: the page table that holds the entry for page number v, 0 if there is none.  With alloc
        it may take a page for a new table. */
    method Walk(d: nat, v: nat, alloc: bool, ghost s: Phys, ghost lo: nat, ghost frame: nat, ghost flags: nat) returns (t: nat)
      requires Valid() && d < |use| && use[d] == Dir && v < SPACE && lo <= v && Mapped(s, View(), d, lo, v - lo, frame, flags)
      modifies this`mem, this`freelist, this`use, this`free
      ensures Valid() && d < |use| && use[d] == Dir && Mapped(s, View(), d, lo, v - lo, frame, flags)
      ensures t != 0 ==> Present(mem[d][v / 1024]) && t == Frame(mem[d][v / 1024]) < |mem|
      ensures t == 0 ==> View() == old(View()) && !Present(mem[d][v / 1024])
      ensures t == 0 && alloc ==> free == old(free) == [] && forall g | 0 <= g < |use| :: use[g] != Free
      ensures t != 0 ==> Entered(old(mem)[d], mem[d], v / 1024) && |free| + (if Present(old(mem)[d][v / 1024]) then 0 else 1) == |old(free)|
      ensures !alloc ==> View() == old(View()) && freelist == old(freelist) && free == old(free)
    {
      assert PdeOk(View(), d, v / 1024);
      if Present(mem[d][v / 1024]) {
        t := Frame(mem[d][v / 1024]);
      } else {
        if !alloc {
          return 0;
        }
        ghost var s' := View();
        t := Kalloc();
        if t == 0 {
          return 0;
        }
        MappedTable(s, s', d, lo, v - lo, frame, flags, t, WithTable(Phys(mem[t := ZeroPage()], use), d, v / 1024, t));
        mem := mem[t := ZeroPage()];
        mem := mem[d := mem[d][v / 1024 := Entry(t, 7)]];
        EntryParts(t, 7);
        ghost var pool := Phys(s'.mem, use);
        use := use[t := Table(d, v / 1024)];
        PoolFrame(pool, View(), freelist, free);
      }
    }

    /** mappages; n counts the pages it has mapped.  pa is page-aligned. */
    method Mappages(d: nat, va: nat, size: nat, pa: nat, perm: nat) returns (r: Outcome, ghost n: nat)
      requires Valid() && d < |use| && use[d] == Dir && size > 0 && va + size <= 0x1_0000_0000 && pa % 4096 == 0 && perm < 4096
      requires forall f | pa / 4096 <= f <= pa / 4096 + ((va + size - 1) / 4096 - va / 4096) && va / 4096 + (f - pa / 4096) < USER :: Spare(f)
      modifies this`mem, this`freelist, this`use, this`free
      ensures n <= (va + size - 1) / 4096 - va / 4096 + 1
      ensures r == Panic ==> exists w | va / 4096 <= w <= (va + size - 1) / 4096 :: Present(Pte(old(mem), d, w))
      ensures r != Panic ==> Valid() && Mapped(old(View()), View(), d, va / 4096, n, pa / 4096, WithPresent(perm))
      ensures r == Done ==> n == (va + size - 1) / 4096 - va / 4096 + 1
      ensures r == NoMemory ==> n <= (va + size - 1) / 4096 - va / 4096 && (n == 0 ==> View() == old(View())) && forall g | 0 <= g < |use| :: use[g] != Free
      ensures r == NoMemory ==> free == [] && NeedsTable(old(mem)[d], va / 4096, va / 4096 + n)
      ensures r != Panic ==> Counted(old(View()), View(), |old(free)|, |free|, d, va / 4096, va / 4096 + n)
    {
      hide VmOk;
      hide PoolOk;
      hide Counted;
      hide NeedsTable;
      hide Mapped;
      hide WithPresent;
      r, n := MapRange(d, va / 4096, (va + size - 1) / 4096, pa / 4096, perm);
    }

    /** The loop of mappages, over page and frame numbers. */
    method MapRange(d: nat, lo: nat, last: nat, base: nat, perm: nat) returns (r: Outcome, ghost n: nat)
      requires Valid() && d < |use| && use[d] == Dir && lo <= last < SPACE && perm < 4096
      requires forall f | base <= f <= base + (last - lo) && lo + (f - base) < USER :: Spare(f)
      modifies this`mem, this`freelist, this`use, this`free
      ensures n <= last - lo + 1
      ensures r == Panic ==> exists w | lo <= w <= last :: Present(Pte(old(mem), d, w))
      ensures r != Panic ==> Valid() && Mapped(old(View()), View(), d, lo, n, base, WithPresent(perm))
      ensures r == Done ==> n == last - lo + 1
      ensures r == NoMemory ==> n <= last - lo && (n == 0 ==> View() == old(View())) && forall g | 0 <= g < |use| :: use[g] != Free
      ensures r == NoMemory ==> free == [] && NeedsTable(old(mem)[d], lo, lo + n)
      ensures r != Panic ==> Counted(old(View()), View(), |old(free)|, |free|, d, lo, lo + n)
    {
      assert |mem| == |use|;
      hide VmOk;
      hide PoolOk;
      hide Counted;
      hide Entered;
      hide NeedsTable;
      hide Mapped;
      hide WithPresent;
      ghost var s := View();
      CountedNone(s, |free|, d, lo);
      var a, frame := lo, base;
      n := 0;
      MappedNone(s, d, a, frame, WithPresent(perm));
      while true
        invariant Valid() && d < |mem| && |use| == |s.use| && a == lo + n && frame == base + n && a <= last
        invariant Mapped(s, View(), d, lo, n, base, WithPresent(perm)) && (n == 0 ==> View() == s)
        invariant Counted(s, View(), |old(free)|, |free|, d, lo, a)
        decreases last - a
      {
        assert a < USER ==> old(Spare(frame));
        ghost var s', left := View(), |free|;
        r := MapOne(d, a, frame, perm, s, lo, base);
        if r != Done {
          if r == NoMemory {
            CountedStops(s, s', |old(free)|, left, d, lo, a);
          }
          return;
        }
        CountedOne(s, s', View(), |old(free)|, left, |free|, d, lo, a);
        n := n + 1;
        if a == last {
          return;
        }
        a, frame := a + 1, frame + 1;
      }
    }

    /** mappages of the single page p at page number v. */
    method MapPage(d: nat, v: nat, p: nat, perm: nat) returns (r: Outcome)
      requires Valid() && d < |use| && use[d] == Dir && v < USER && perm < 4096 && Spare(p)
      modifies this`mem, this`freelist, this`use, this`free
      ensures r == Panic ==> Present(Pte(old(mem), d, v))
      ensures r == NoMemory ==> Valid() && View() == old(View()) && free == old(free) == [] && NeedsTable(mem[d], v, v)
      ensures r == Done ==> Valid() && Mapped(old(View()), View(), d, v, 1, p, WithPresent(perm))
      ensures r == Done ==> Counted(old(View()), View(), |old(free)|, |free|, d, v, v + 1)
    {
      PageOf(v);
      PageOf(p);
      hide Mapped;
      hide PoolOk;
      ghost var n;
      r, n := Mappages(d, 4096 * v, 4096, 4096 * p, perm);
    }

    /** One turn of the loop of mappages. */
    method MapOne(d: nat, v: nat, frame: nat, perm: nat, ghost s: Phys, ghost lo: nat, ghost base: nat) returns (r: Outcome)
      requires Valid() && lo <= v < SPACE && perm < 4096 && frame == base + (v - lo)
      requires Mapped(s, View(), d, lo, v - lo, base, WithPresent(perm))
      requires v < USER ==> first <= frame < |use| && s.use[frame] == Kernel
      modifies this`mem, this`freelist, this`use, this`free
      ensures r == Panic ==> Present(Pte(s.mem, d, v))
      ensures r == NoMemory ==> Valid() && View() == old(View()) && forall g | 0 <= g < |use| :: use[g] != Free
      ensures r == NoMemory ==> free == old(free) == [] && !Present(mem[d][v / 1024])
      ensures r == Done ==> Valid() && Mapped(s, View(), d, lo, v - lo + 1, base, WithPresent(perm))
      ensures r != Panic ==> d < |mem| && |use| == |old(use)|
      ensures r == Done ==> Entered(old(mem)[d], mem[d], v / 1024) && |free| + (if Present(old(mem)[d][v / 1024]) then 0 else 1) == |old(free)|
    {
      hide VmOk;
      var t := Walk(d, v, true, s, lo, base, WithPresent(perm));
      if t == 0 {
        return NoMemory;
      }
      assert Pte(mem, d, v) == mem[t][v % 1024];
      if Present(mem[t][v % 1024]) {
        return Panic;
      }
      ghost var s' := View();
      ghost var use' := if v < USER then use[frame := User(d, v)] else use;
      assert v < USER ==> MappedUse(s, s', d, lo, v - lo, base, frame);
      TableNotFree(s', d, v);
      MappedOne(s, s', d, lo, v - lo, base, WithPresent(perm), use');
      mem := mem[t := mem[t][v % 1024 := Entry(frame, WithPresent(perm))]];
      use := use';
      PoolFrame(s', View(), freelist, free);
      r := Done;
    }

    // ----- deallocuvm and freevm -----

    /** The page at page number v, whose entry is in table t, returns to the pool. */
    method Release(d: nat, v: nat, t: nat, ghost s: Phys, ghost lo: nat)
      requires Valid() && Unmapped(s, View(), d, lo, v) && lo <= v < USER
      requires Present(mem[d][v / 1024]) && t == Frame(mem[d][v / 1024]) < |mem| && Present(mem[t][v % 1024])
      modifies this`mem, this`freelist, this`use, this`free
      ensures Valid() && d < |use| && use[d] == Dir && Unmapped(s, View(), d, lo, v + 1)
    {
      hide VmOk;
      ghost var s' := View();
      var pa := Frame(mem[t][v % 1024]);
      PageInUse(s', d, v);
      UnmappedOne(s, s', d, lo, v, Junk(freelist));
      PoolPush(s', freelist, free, pa);
      var panicked := Kfree(pa);
      ghost var pool := Phys(mem, use[pa := Free]);
      mem := mem[t := mem[t][v % 1024 := 0]];
      use, free := use[pa := Free], [pa] + free;
      PoolFrame(pool, View(), freelist, free);
    }

    /** deallocuvm: frees the user pages between the two sizes, like a scan of every page number. */
    method Deallocuvm(d: nat, oldsz: nat, newsz: nat) returns (sz: nat)
      requires Valid() && d < |use| && use[d] == Dir && oldsz <= 0x8000_0000 && newsz < 0x1_0000_0000
      modifies this`mem, this`freelist, this`use, this`free
      ensures Valid() && sz == (if newsz >= oldsz then oldsz else newsz)
      ensures if newsz >= oldsz then View() == old(View()) else Unmapped(old(View()), View(), d, Pages(newsz), Pages(oldsz))
    {
      if newsz >= oldsz {
        return oldsz;
      }
      hide VmOk;
      hide PoolOk;
      hide Unmapped;
      hide Mapped;
      ghost var s, lo, hi := View(), Pages(newsz), Pages(oldsz);
      PagesAre(newsz);
      PagesAre(oldsz);
      hide Pages;
      var a := (newsz + 4095) / 4096 * 4096;
      ghost var v := lo;
      UnmappedNone(s, d, lo);
      while a < oldsz
        invariant a == 4096 * v && lo <= v <= USER && Valid() && d < |use| && use[d] == Dir && Unmapped(s, View(), d, lo, Least(v, hi))
        decreases oldsz - a
      {
        PageOf(v);
        var t := DropPage(d, a / 4096, s, lo, hi);
        if t == 0 {
          a := (a / 0x40_0000 + 1) * 0x40_0000 - 4096;
          v := (v / 1024 + 1) * 1024 - 1;
        }
        a, v := a + 4096, v + 1;
      }
      sz := newsz;
    }

    /** One turn of the loop of deallocuvm; without a table it reaches up to the next one. */
    method DropPage(d: nat, v: nat, ghost s: Phys, ghost lo: nat, ghost hi: nat) returns (t: nat)
      requires Valid() && d < |use| && use[d] == Dir && lo <= v < hi <= USER && Unmapped(s, View(), d, lo, v)
      modifies this`mem, this`freelist, this`use, this`free
      ensures Valid() && d < |use| && use[d] == Dir
      ensures Unmapped(s, View(), d, lo, Least(if t == 0 then (v / 1024 + 1) * 1024 else v + 1, hi))
    {
      hide VmOk;
      hide PoolOk;
      hide Unmapped;
      hide Mapped;
      ghost var s' := View();
      MappedNone(s', d, v, 0, 0);
      t := Walk(d, v, false, s', v, 0, 0);
      if t == 0 {
        SkipTable(s, s', d, lo, v, hi);
      } else if Present(mem[t][v % 1024]) {
        Release(d, v, t, s, lo);
      } else {
        UnmappedSkip(s, s', d, lo, v, v + 1);
      }
    }

    /** freevm: all pages of the address space return to the pool. */
    method Freevm(d: nat)
      requires Valid() && d < |use| && use[d] == Dir
      modifies this`mem, this`freelist, this`use, this`free
      ensures Valid() && Gone(old(View()), View(), d)
    {
      assert |mem| == |use|;
      hide VmOk;
      hide PoolOk;
      hide Unmapped;
      hide Stripped;
      hide Gone;
      ghost var s := View();
      var sz := Deallocuvm(d, 0x8000_0000, 0);
      ghost var s1 := View();
      NoUserPages(s, s1, d);
      Dismantle(d);
      FreeTables(d, s1);
      ghost var s2 := View();
      StrippedDir(s1, s2, d);
      FreePage(d);
      GoneIs(s, s1, s2, View(), d);
    }

    /** From here on the directory and its tables are plain pages. */
    ghost method Dismantle(d: nat)
      requires Valid() && d < |use| && use[d] == Dir && forall f | 0 <= f < |use| :: !UserOf(use[f], d)
      modifies this`use
      ensures Valid() && Stripped(old(View()), View(), d, 0)
    {
      ghost var s1 := View();
      DismantledOk(s1, d);
      use := Dismantled(use, d);
      PoolFrame(s1, View(), freelist, free);
    }

    /** The loop of freevm. */
    method FreeTables(d: nat, ghost s1: Phys)
      requires Valid() && VmOk(s1) && d < |s1.use| && s1.use[d] == Dir && Stripped(s1, View(), d, 0)
      requires first <= |s1.use| && forall f | 0 <= f < first :: s1.use[f] == Kernel
      modifies this`mem, this`freelist, this`use, this`free
      ensures Valid() && Stripped(s1, View(), d, 1024)
    {
      hide VmOk;
      hide PoolOk;
      var i := 0;
      while i < 1024
        invariant 0 <= i <= 1024 && Valid() && Stripped(s1, View(), d, i)
      {
        StripNext(s1, View(), d, i);
        if Present(mem[d][i]) {
          FreePage(Frame(mem[d][i]));
        }
        i := i + 1;
      }
    }

    // ----- setupkvm, copyuvm and allocuvm -----

    /** setupkvm, for a kernel whose writable data begin at address data; 0 for lack of memory. */
    method Setupkvm(data: nat) returns (d: nat)
      requires Valid() && 0x8010_0000 < data < 0x8e00_0000 && data % 4096 == 0
      modifies this`mem, this`freelist, this`use, this`free
      ensures Valid()
      ensures d == 0 ==> use == old(use) && |mem| == |old(mem)| && forall f | 0 <= f < |use| && use[f] != Free :: mem[f] == old(mem)[f]
      ensures d != 0 ==> New(old(View()), View(), d) && use[d] == Dir && forall w | 0 <= w < SPACE :: Pte(mem, d, w) == KernelPte(data, 4, w)
      ensures d != 0 ==> KernelSpace(data, mem, d)
      ensures (d == 0 <==> |old(free)| < 65) && (d != 0 ==> |free| == |old(free)| - 65 && d < |mem| && KernelDir(data, 4, mem[d]))
    {
      ghost var s := View();
      d := Kalloc();
      if d == 0 {
        return;
      }
      NewDir(s, Phys(s.mem[d := ZeroPage()], s.use[d := Dir]), d);
      mem := mem[d := ZeroPage()];
      ghost var pool := View();
      use := use[d := Dir];
      PoolFrame(Phys(s.mem, pool.use), View(), freelist, free);
      assert use == s.use[d := Dir];
      hide VmOk;
      hide PoolOk;
      hide Gone;
      hide KernelSpace;
      var k := 0;
      while k < 4
        invariant 0 <= k <= 4 && Valid() && New(s, View(), d) && d < |use| && use[d] == Dir
        invariant forall w | 0 <= w < SPACE :: Pte(mem, d, w) == KernelPte(data, k, w)
        invariant d < |mem| && KernelDir(data, k, mem[d]) && |free| == |old(free)| - 1 - KernelTables(data, k)
      {
        var ok := AddRow(d, data, k, s);
        if !ok {
          ghost var s' := View();
          Freevm(d);
          NewGone(s, s', View(), d);
          return 0;
        }
        k := k + 1;
      }
      RowsFill(data, mem, d);
    }

    /** One turn of the loop of setupkvm; it meets no page that is mapped already. */
    method AddRow(d: nat, data: nat, k: nat, ghost s: Phys) returns (ok: bool)
      requires Valid() && 0x8010_0000 < data < 0x8e00_0000 && data % 4096 == 0 && k < 4 && New(s, View(), d) && d < |use| && use[d] == Dir
      requires d < |mem| && forall w | 0 <= w < SPACE :: Pte(mem, d, w) == KernelPte(data, k, w)
      requires KernelDir(data, k, mem[d])
      modifies this`mem, this`freelist, this`use, this`free
      ensures Valid() && New(s, View(), d) && d < |use| && use[d] == Dir && d < |mem|
      ensures ok <==> |old(free)| >= KernelTables(data, k + 1) - KernelTables(data, k)
      ensures ok ==> KernelDir(data, k + 1, mem[d]) && |free| == |old(free)| - (KernelTables(data, k + 1) - KernelTables(data, k))
      ensures ok ==> forall w | 0 <= w < SPACE :: Pte(mem, d, w) == KernelPte(data, k + 1, w)
    {
      hide VmOk;
      hide PoolOk;
      hide Mapped;
      hide New;
      hide KernelDir;
      hide Filled;
      ghost var s' := View();
      var row := Kmap(data)[k];
      RowEmpty(mem, d, data, k);
      ghost var n;
      var r;
      r, n := Mappages(d, row.virt, row.size, row.phys, row.perm);
      NewKernelRow(s, s', View(), d, row.virt / 4096, n, row.phys / 4096, WithPresent(row.perm));
      RowTables(data, k, s'.mem[d]);
      if r == Done {
        RowFilled(data, k, s'.mem[d], mem[d]);
        RowMapped(s', View(), d, data, k);
      } else {
        MissingGrows(s'.mem[d], RowLow(data, k), RowLow(data, k) + n, RowHigh(data, k));
      }
      ok := r == Done;
    }

    /** copyuvm: Done with a child that holds copies of all pages below sz, or NoMemory with every page back
        in the pool, or a panic, which needs a page below sz that is not present. */
    method Copyuvm(d: nat, sz: nat, data: nat) returns (r: Outcome, c: nat)
      requires Valid() && d < |use| && use[d] == Dir && sz <= 0x8000_0000 && 0x8010_0000 < data < 0x8e00_0000 && data % 4096 == 0
      modifies this`mem, this`freelist, this`use, this`free
      ensures r == Panic ==> exists w | 0 <= w < Pages(sz) :: !Present(Pte(old(mem), d, w))
      ensures r == Done ==> Valid() && Copied(old(View()), View(), d, c, Pages(sz), data)
      ensures r == NoMemory ==> Valid() && use == old(use) && |mem| == |old(mem)| && forall f | 0 <= f < |use| && use[f] != Free :: mem[f] == old(mem)[f]
      ensures r == Done ==> |free| == |old(free)| - CopyNeeds(sz)
      ensures r == NoMemory ==> |old(free)| < CopyNeeds(sz)
    {
      assert |mem| == |use|;
      hide VmOk;
      hide PoolOk;
      hide Gone;
      ghost var s := View();
      c := Setupkvm(data);
      if c == 0 {
        return NoMemory, 0;
      }
      ghost var s1, n := View(), |free|;
      StartCopy(s, s1, d, c, data);
      PagesAre(sz);
      FilledNone(mem[c], 0);
      ChildTables(data, mem[c], Pages(sz));
      hide KernelDir;
      hide Pages;
      hide Copied;
      hide Filled;
      hide Missing;
      var i := 0;
      ghost var v := 0;
      while i < sz
        invariant i == 4096 * v && 0 <= v <= Pages(sz) && Valid() && Copied(s, View(), d, c, v, data)
        invariant Tally(s1, View(), n, |free|, c, 0, v)
        decreases sz - i
      {
        PageOf(v);
        r := CopyPage(d, c, i / 4096, s, s1, n, Pages(sz), data);
        if r == Panic {
          return;
        }
        if r == NoMemory {
          StopsEarly(s1.mem[c], 0, v, Pages(sz), n);
          GiveBack(c, s);
          return NoMemory, 0;
        }
        i, v := i + 4096, v + 1;
      }
      r := Done;
    }

    /** The label bad of copyuvm. */
    method GiveBack(c: nat, ghost s: Phys)
      requires Valid() && New(s, View(), c) && c < |use| && use[c] == Dir
      modifies this`mem, this`freelist, this`use, this`free
      ensures Valid() && use == s.use && |mem| == |s.mem| && forall f | 0 <= f < |use| && use[f] != Free :: mem[f] == s.mem[f]
    {
      hide VmOk;
      hide PoolOk;
      hide Gone;
      ghost var s' := View();
      Freevm(c);
      NewGone(s, s', View(), c);
    }

    /** One turn of the loop of copyuvm. */
    method CopyPage(d: nat, c: nat, v: nat, ghost s: Phys, ghost s1: Phys, ghost n: nat, ghost hi: nat, ghost data: nat) returns (r: Outcome)
      requires Valid() && Copied(s, View(), d, c, v, data) && v < hi <= USER && Tally(s1, View(), n, |free|, c, 0, v)
      modifies this`mem, this`freelist, this`use, this`free
      ensures r == Panic ==> !Present(Pte(s.mem, d, v))
      ensures r == NoMemory ==> Valid() && New(s, View(), c) && c < |use| && use[c] == Dir && StopsAt(s1.mem[c], 0, v, hi, n)
      ensures r == Done ==> Valid() && Copied(s, View(), d, c, v + 1, data) && Tally(s1, View(), n, |free|, c, 0, v + 1)
    {
      hide PoolOk;
      ghost var s' := View();
      ParentSame(s, s', d, c, v);
      MappedNone(s', d, v, 0, 0);
      var t := Walk(d, v, false, s', v, 0, 0);
      if t == 0 {
        return Panic;
      }
      var e := mem[t][v % 1024];
      assert e == Pte(s.mem, d, v);
      if !Present(e) {
        return Panic;
      }
      hide VmOk;
      var p := Kalloc();
      if p == 0 {
        return NoMemory;
      }
      PartsEntry(e);
      r := MapCopy(c, v, p, Frame(e), Flags(e), d, s', s, s1, n, hi, data);
    }

    /** memmove and mappages of copyuvm, with the page returned if there is no memory for a table. */
    method MapCopy(c: nat, v: nat, p: nat, pa: nat, flags: nat, ghost d: nat, ghost s': Phys, ghost s: Phys, ghost s1: Phys, ghost n: nat, ghost hi: nat,
      ghost data: nat)
      returns (r: Outcome)
      requires Tally(s1, s', n, |free| + 1, c, 0, v)
      requires Valid() && Copied(s, s', d, c, v, data) && v < hi <= USER && first <= p < |s'.use| && s'.use[p] == Free && View() == s'.(use := s'.use[p := Kernel])
      requires Present(Pte(s.mem, d, v)) && pa == Frame(Pte(s.mem, d, v)) < |s.mem| && flags == Flags(Pte(s.mem, d, v)) < 4096 && Present(flags)
      requires s'.mem[pa] == s.mem[pa]
      modifies this`mem, this`freelist, this`use, this`free
      ensures r != Panic
      ensures r == NoMemory ==> Valid() && New(s, View(), c) && c < |use| && use[c] == Dir && StopsAt(s1.mem[c], 0, v, hi, n)
      ensures r == Done ==> Valid() && Copied(s, View(), d, c, v + 1, data) && Tally(s1, View(), n, |free|, c, 0, v + 1)
    {
      Fill(p, mem[pa]);
      ghost var filled := View();
      LooseChange(s', filled, p);
      assert filled.mem[c] == s'.mem[c] && |mem| == |use|;
      hide VmOk;
      hide PoolOk;
      hide CopyAt;
      hide Mapped;
      r := MapPage(c, v, p, flags);
      if r == NoMemory {
        TallyStops(s1, s', n, c, 0, v);
        FreePage(p);
        assert use == s'.use;
        NewLoose(s, s', View(), c, p);
        return;
      }
      TallyOne(s1, s', View(), n, |old(free)|, |free|, c, 0, v);
      CopiedOne(s, s', filled, View(), d, c, v, p, flags, data);
    }

    /** The words of a page that is in no address space. */
    method Fill(p: nat, words: Page)
      requires Valid() && first <= p < |use| && use[p] == Kernel
      modifies this`mem
      ensures Valid() && mem == old(mem)[p := words]
    {
      ghost var s := View();
      mem := mem[p := words];
      LooseChange(s, View(), p);
      PoolFrame(s, View(), freelist, free);
    }

    /** The page numbers from lo to hi have no page yet. */
    ghost predicate Vacant(d: nat, lo: nat, hi: nat)
      reads this
      requires d < |mem| && hi <= SPACE
    {
      forall w | lo <= w < hi :: !Present(Pte(mem, d, w))
    }

    /** allocuvm from oldsz to newsz bytes; sz is what it returns.  If the pages that it is asked for were
        not there before, it fails exactly if there are fewer free pages than pages and missing tables; then
        nothing that was mapped has changed, but the tables up to page number reached are kept. */
    method Allocuvm(d: nat, oldsz: nat, newsz: nat) returns (r: Outcome, sz: nat, ghost reached: nat)
      requires Valid() && d < |use| && use[d] == Dir && oldsz < 0x1_0000_0000 && newsz < 0x1_0000_0000
      modifies this`mem, this`freelist, this`use, this`free
      ensures newsz >= 0x8000_0000 || newsz < oldsz ==>
                r == Done && sz == (if newsz >= 0x8000_0000 then 0 else oldsz) && View() == old(View()) && Valid()
      ensures newsz < 0x8000_0000 && newsz >= oldsz ==>
                && (r == Done ==> sz == newsz && Valid() && Grown(old(View()), View(), d, Pages(oldsz), Pages(newsz)))
                && (r == NoMemory ==> sz == 0 && Valid())
                && (r == Panic ==> exists w | Pages(oldsz) <= w < Pages(newsz) :: Present(Pte(old(mem), d, w)))
      ensures newsz < 0x8000_0000 && newsz >= oldsz && Pages(newsz) <= SPACE && old(Vacant(d, Pages(oldsz), Pages(newsz))) ==>
                && (r == Done <==> |old(free)| >= Pages(newsz) - Pages(oldsz) + Missing(old(mem)[d], Pages(oldsz), Pages(newsz)))
                && (r == Done ==> |free| == |old(free)| - (Pages(newsz) - Pages(oldsz)) - Missing(old(mem)[d], Pages(oldsz), Pages(newsz)))
                && (r == NoMemory ==> Failed(old(View()), View(), |old(free)|, d, Pages(oldsz), Pages(newsz), reached))
                && (r == NoMemory ==> (use == old(use) <==> NoTableReached(old(mem)[d], Pages(oldsz), Pages(newsz), |old(free)|)))
    {
      reached := 0;
      if newsz >= 0x8000_0000 {
        return Done, 0, 0;
      }
      if newsz < oldsz {
        return Done, oldsz, 0;
      }
      assert |mem| == |use|;
      ghost var s, lo, hi := View(), Pages(oldsz), Pages(newsz);
      PagesAre(oldsz);
      PagesAre(newsz);
      GrownNone(s, d, lo);
      FilledNone(s.mem[d], lo);
      hide VmOk;
      hide PoolOk;
      hide Grown;
      hide Pages;
      hide Filled;
      hide Missing;
      var a := (oldsz + 4095) / 4096 * 4096;
      ghost var v := lo;
      while a < newsz
        invariant a == 4096 * v && lo <= v <= hi && Valid() && Grown(s, View(), d, lo, v)
        invariant Tally(s, View(), |old(free)|, |free|, d, lo, v)
        decreases newsz - a
      {
        PageOf(v);
        r := GrowPage(d, a / 4096, oldsz, newsz, s, |old(free)|);
        if r != Done {
          if r == NoMemory && old(Vacant(d, lo, hi)) {
            StopsEarly(s.mem[d], lo, v, hi, |old(free)|);
            TablesKept(s, View(), d, lo, v);
          }
          return r, 0, v;
        }
        a, v := a + 4096, v + 1;
      }
      return Done, newsz, v;
    }

    /** One turn of the loop of allocuvm, with its two error exits. */
    method GrowPage(d: nat, v: nat, oldsz: nat, newsz: nat, ghost s: Phys, ghost n: nat) returns (r: Outcome)
      requires Valid() && Pages(oldsz) <= v < Pages(newsz) && oldsz < newsz < 0x8000_0000 && Grown(s, View(), d, Pages(oldsz), v)
      requires Tally(s, View(), n, |free|, d, Pages(oldsz), v)
      modifies this`mem, this`freelist, this`use, this`free
      ensures r == Done ==> Valid() && Grown(s, View(), d, Pages(oldsz), v + 1) && Tally(s, View(), n, |free|, d, Pages(oldsz), v + 1)
      ensures r == NoMemory ==> Valid()
      ensures r == NoMemory && (forall w | Pages(oldsz) <= w < Pages(newsz) :: !Present(Pte(s.mem, d, w))) ==>
                Failed(s, View(), n, d, Pages(oldsz), Pages(newsz), v)
      ensures r == Panic ==> Present(Pte(s.mem, d, v))
    {
      hide PoolOk;
      ghost var s', lo, hi := View(), Pages(oldsz), Pages(newsz);
      PagesAre(newsz);
      hide Pages;
      hide Filled;
      hide Missing;
      var p := Kalloc();
      if p == 0 {
        ghost var before := View();
        var sz := Deallocuvm(d, newsz, oldsz);
        if forall w | lo <= w < hi :: !Present(Pte(s.mem, d, w)) {
          GrownUndone(s, before, View(), d, lo, v, hi);
        }
        return NoMemory;
      }
      Fill(p, ZeroPage());
      assert View() == Aside(s', p);
      r := MapGrown(d, v, p, oldsz, newsz, s', s, n);
    }

    /** mappages of allocuvm, and what follows if it fails. */
    method MapGrown(d: nat, v: nat, p: nat, oldsz: nat, newsz: nat, ghost s': Phys, ghost s: Phys, ghost n: nat) returns (r: Outcome)
      requires Valid() && Pages(oldsz) <= v < Pages(newsz) <= USER && oldsz < newsz < 0x8000_0000 && Grown(s, s', d, Pages(oldsz), v)
      requires first <= p < |s'.use| && s'.use[p] == Free && View() == Aside(s', p)
      requires Tally(s, s', n, |free| + 1, d, Pages(oldsz), v)
      modifies this`mem, this`freelist, this`use, this`free
      ensures r == Done ==> Valid() && Grown(s, View(), d, Pages(oldsz), v + 1) && Tally(s, View(), n, |free|, d, Pages(oldsz), v + 1)
      ensures r == NoMemory ==> Valid()
      ensures r == NoMemory && (forall w | Pages(oldsz) <= w < Pages(newsz) :: !Present(Pte(s.mem, d, w))) ==>
                Failed(s, View(), n, d, Pages(oldsz), Pages(newsz), v)
      ensures r == Panic ==> Present(Pte(s.mem, d, v))
    {
      ghost var s1, lo, hi := View(), Pages(oldsz), Pages(newsz);
      GrownAside(s, s', d, lo, v, p);
      LooseChange(s', s1, p);
      assert s1.mem[d] == s'.mem[d];
      hide Pages;
      hide PoolOk;
      hide Mapped;
      r := MapPage(d, v, p, 6);
      if r == Done {
        GrownOne(s, s', s1, View(), d, lo, v, p);
        TallyOne(s, s', View(), n, |old(free)|, |free|, d, lo, v);
      } else if r == NoMemory {
        TallyStops(s, s', n, d, lo, v);
        ghost var s2 := View();
        var sz := Deallocuvm(d, newsz, oldsz);
        ghost var s3 := View();
        FreePage(p);
        if forall w | lo <= w < hi :: !Present(Pte(s.mem, d, w)) {
          GrownUndone(Aside(s, p), s1, s3, d, lo, v, hi);
          assert GrownUse(s, s', d, lo, v, p);
          UndoneAside(s, s3, View(), d, p);
        }
      }
    }

    /** setupkvm, allocuvm and freevm: every page is back in the pool, whether or not there was enough memory. */
    method MakeAndFree(data: nat, oldsz: nat, newsz: nat) returns (r: Outcome)
      requires Valid() && 0x8010_0000 < data < 0x8e00_0000 && data % 4096 == 0 && oldsz <= newsz < 0x8000_0000
      modifies this`mem, this`freelist, this`use, this`free
      ensures r != Panic && Valid() && use == old(use) && |mem| == |old(mem)|
      ensures forall f | 0 <= f < |use| && use[f] != Free :: mem[f] == old(mem)[f]
    {
      assert |mem| == |use|;
      hide VmOk;
      hide PoolOk;
      hide Gone;
      hide Grown;
      hide Undone;
      ghost var s := View();
      var d := Setupkvm(data);
      if d == 0 {
        return NoMemory;
      }
      ghost var s1 := View();
      ghost var reached;
      var sz;
      PagesAre(newsz);
      UserVacant(data, mem, d, Pages(oldsz), Pages(newsz));
      r, sz, reached := Allocuvm(d, oldsz, newsz);
      if r == Done {
        NewGrown(s, s1, View(), d, Pages(oldsz), Pages(newsz));
      } else {
        NewUndone(s, s1, View(), d);
      }
      GiveBack(d, s);
    }
  }

  /** 67 free pages are enough for setupkvm and two pages more.  allocuvm of two pages then takes one of
      them for a page table and fails for lack of a third, and the table stays. */
  method TableStays() returns (m: Machine, d: nat, r: Outcome, ghost before: seq<Use>)
    ensures m.Valid() && d < |before| && before[d] == Dir && r == NoMemory && |m.use| == |before|
    ensures exists f | 0 <= f < |before| :: before[f] == Free && m.use[f] == Table(d, 0)
  {
    m := new Machine(seq(68, i => ZeroPage()), 1);
    m.Freerange(4096, 4096 * 68);
    assert |m.free| == 67;
    d := m.Setupkvm(0x8020_0000);
    before := m.use;
    assert |m.mem| == |m.use| && |m.free| == 2;
    hide PoolOk;
    hide New;
    hide KernelPte;
    ghost var dir, s := m.mem[d], m.View();
    UserVacant(0x8020_0000, m.mem, d, 0, 2);
    TwoMissing(dir);
    var sz;
    ghost var reached;
    r, sz, reached := m.Allocuvm(d, 0, 8192);
    assert !NoTableReached(dir, 0, 2, 2) by {
      assert !Present(dir[0 / 1024]);
    }
    FirstTable(s, m.View(), d, reached);
  }

  lemma {:induction false} TwoMissing(dir: Page)
    requires !Present(dir[0])
    ensures Missing(dir, 0, 2) == 1
  {
    assert Missing(dir, 0, 1) == 1;
  }

  lemma FirstTable(s: Phys, s': Phys, d: nat, reached: nat)
    requires VmOk(s) && d < |s.use| && s.use[d] == Dir && Failed(s, s', 2, d, 0, 2, reached) && !Present(s.mem[d][0])
    ensures exists f | 0 <= f < |s.use| :: s.use[f] == Free && s'.use[f] == Table(d, 0)
  {
    assert Missing(s.mem[d], 0, 0) == 0;
    var f := Frame(s'.mem[d][0]);
    assert PdeOk(s', d, 0) && SameOrTable(s, s', d, f) && FrameOk(s, f);
  }

  lemma {:induction false} UserVacant(data: nat, mem: Memory, d: nat, lo: nat, hi: nat)
    requires 0x8010_0000 < data < 0x8e00_0000 && data % 4096 == 0 && d < |mem| && hi <= USER
    requires forall w | 0 <= w < SPACE :: Pte(mem, d, w) == KernelPte(data, 4, w)
    ensures forall w | lo <= w < hi :: !Present(Pte(mem, d, w))
  {
    forall w | lo <= w < hi
      ensures !Present(Pte(mem, d, w))
    {
      KernelOnly(data, 4, w);
    }
  }

  lemma {:induction false} StartCopy(s: Phys, s': Phys, d: nat, c: nat, data: nat)
    requires VmOk(s) && VmOk(s') && New(s, s', c) && s'.use[c] == Dir && d < |s.use| && s.use[d] == Dir
    requires 0x8010_0000 < data < 0x8e00_0000 && data % 4096 == 0 && forall w | 0 <= w < SPACE :: Pte(s'.mem, c, w) == KernelPte(data, 4, w)
    ensures Copied(s, s', d, c, 0, data)
  {
    forall w | 0 <= w < USER
      ensures !Present(Pte(s'.mem, c, w))
    {
      KernelOnly(data, 4, w);
    }
    RowsFill(data, s'.mem, c);
  }

  /** Nothing is mapped yet where row k goes. */
  lemma {:induction false} RowEmpty(mem: Memory, d: nat, data: nat, k: nat)
    requires 0x8010_0000 < data < 0x8e00_0000 && data % 4096 == 0 && k < 4 && d < |mem|
    requires forall w | 0 <= w < SPACE :: Pte(mem, d, w) == KernelPte(data, k, w)
    ensures var row := Kmap(data)[k];
            row.size > 0 && row.virt + row.size <= 0x1_0000_0000 && row.phys % 4096 == 0 && row.virt / 4096 >= USER
    ensures forall w | RowLow(data, k) <= w < RowHigh(data, k) :: !Present(Pte(mem, d, w))
  {
    RowApart(data, k, 0);
    forall w | RowLow(data, k) <= w < RowHigh(data, k)
      ensures !Present(Pte(mem, d, w))
    {
      RowApart(data, k, w);
    }
  }

  lemma {:induction false} RowMapped(s: Phys, s': Phys, d: nat, data: nat, k: nat)
    requires 0x8010_0000 < data < 0x8e00_0000 && data % 4096 == 0 && k < 4 && d < |s.mem| && d < |s'.mem|
    requires Mapped(s, s', d, RowLow(data, k), RowHigh(data, k) - RowLow(data, k), Kmap(data)[k].phys / 4096, WithPresent(Kmap(data)[k].perm))
    requires forall w | 0 <= w < SPACE :: Pte(s.mem, d, w) == KernelPte(data, k, w)
    ensures forall w | 0 <= w < SPACE :: Pte(s'.mem, d, w) == KernelPte(data, k + 1, w)
  {
  }

  lemma StrippedDir(s: Phys, s': Phys, d: nat)
    requires Stripped(s, s', d, 1024)
    ensures |s'.use| == |s.use| && d < |s'.use| && s'.use[d] == Kernel
  {
  }

  lemma NoUserPages(s: Phys, s': Phys, d: nat)
    requires Unmapped(s, s', d, 0, USER)
    ensures VmOk(s') && |s'.use| == |s'.mem| == |s.use| && d < |s'.use| && s'.use[d] == Dir && 0 < d
    ensures forall f | 0 <= f < |s'.use| :: !UserOf(s'.use[f], d)
  {
    forall f | 0 <= f < |s'.use|
      ensures !UserOf(s'.use[f], d)
    {
      assert FrameOk(s, f);
    }
  }

  lemma PagesAre(sz: nat)
    ensures Pages(sz) == (sz + 4095) / 4096 && 4096 * Pages(sz) >= sz > 4096 * (Pages(sz) - 1)
  {
  }

  lemma PageOf(v: nat)
    ensures 4096 * v / 4096 == v && 4096 * v / 0x40_0000 == v / 1024
  {
  }

  /** The pages that sz bytes take. */
  function Pages(sz: nat): nat {
    (sz + 4095) / 4096
  }

  /** The pages of a child of sz bytes: directory and kernel tables, user pages, and their tables. */
  function CopyNeeds(sz: nat): nat {
    65 + Pages(sz) + (Pages(sz) + 1023) / 1024
  }

  lemma {:induction false} ChildTables(data: nat, dir: Page, hi: nat)
    requires KernelDir(data, 4, dir) && hi <= USER
    ensures Missing(dir, 0, hi) == (hi + 1023) / 1024
  {
    if hi > 0 {
      MissingIs(dir, 0, hi, -1);
    }
  }

  function Least(a: nat, b: nat): nat {
    if a < b then a else b
  }

  /** Without a page table there is nothing to free up to the next one. */
  lemma SkipTable(s: Phys, s': Phys, d: nat, lo: nat, v: nat, hi: nat)
    requires Unmapped(s, s', d, lo, v) && v < hi <= USER && !Present(s'.mem[d][v / 1024])
    ensures Unmapped(s, s', d, lo, Least((v / 1024 + 1) * 1024, hi))
  {
    forall w | v <= w < Least((v / 1024 + 1) * 1024, hi)
      ensures !Present(Pte(s'.mem, d, w))
    {
      assert w / 1024 == v / 1024;
    }
    UnmappedSkip(s, s', d, lo, v, Least((v / 1024 + 1) * 1024, hi));
  }

  lemma TableNotFree(s: Phys, d: nat, v: nat)
    requires VmOk(s) && d < |s.use| && s.use[d] == Dir && v < SPACE && Present(s.mem[d][v / 1024])
    ensures 0 < Frame(s.mem[d][v / 1024]) < |s.use| && s.use[Frame(s.mem[d][v / 1024])] == Table(d, v / 1024)
  {
    assert PdeOk(s, d, v / 1024);
  }

  lemma PageInUse(s: Phys, d: nat, v: nat)
    requires VmOk(s) && d < |s.use| && s.use[d] == Dir && v < USER && Present(Pte(s.mem, d, v))
    ensures Present(s.mem[d][v / 1024]) && 0 < Frame(s.mem[d][v / 1024]) < |s.use| && s.use[Frame(s.mem[d][v / 1024])] == Table(d, v / 1024)
    ensures 0 < Frame(Pte(s.mem, d, v)) < |s.use| && s.use[Frame(Pte(s.mem, d, v))] == User(d, v)
  {
    assert PdeOk(s, d, v / 1024) && PteOk(s, d, v);
  }
}
