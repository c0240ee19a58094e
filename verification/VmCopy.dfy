/** New address spaces: what setupkvm, allocuvm and copyuvm build, on values. */
module VmCopy {
  import opened VmModel
  import opened VmSpace

  // ----- the kernel mappings -----

  /** A row of kmap: virtual start, physical start, bytes, permissions. */
  datatype Row = Row(virt: nat, phys: nat, size: nat, perm: nat)

  /** kmap, for a kernel whose writable data begin at address data. */
  function Kmap(data: nat): seq<Row>
    requires 0x8010_0000 < data < 0x8e00_0000
  {
    [Row(0x8000_0000, 0, 0x10_0000, 2),
     Row(0x8010_0000, 0x10_0000, data - 0x8010_0000, 0),
     Row(data, data - 0x8000_0000, 0x8e00_0000 - data, 2),
     Row(0xfe00_0000, 0xfe00_0000, 0x200_0000, 2)]
  }

  /** The entry for page number w after the first i rows. */
  function KernelPte(data: nat, i: nat, w: nat): nat
    requires 0x8010_0000 < data < 0x8e00_0000 && i <= 4
  {
    if i == 0 then 0
    else
      var row := Kmap(data)[i - 1];
      if row.virt / 4096 <= w <= (row.virt + row.size - 1) / 4096 then Entry(row.phys / 4096 + (w - row.virt / 4096), WithPresent(row.perm))
      else KernelPte(data, i - 1, w)
  }

  /** The rows do not overlap and lie in the kernel half. */
  lemma {:induction false} RowApart(data: nat, i: nat, w: nat)
    requires 0x8010_0000 < data < 0x8e00_0000 && data % 4096 == 0 && i < 4
    ensures var row := Kmap(data)[i];
            && row.size > 0 && row.virt + row.size <= 0x1_0000_0000 && row.phys % 4096 == 0 && row.virt / 4096 >= USER
            && (row.virt / 4096 <= w <= (row.virt + row.size - 1) / 4096 ==> KernelPte(data, i, w) == 0)
  {
    assert KernelPte(data, 0, w) == 0;
    if i > 0 {
      var r0 := Kmap(data)[0];
      assert w > (r0.virt + r0.size - 1) / 4096 ==> KernelPte(data, 1, w) == 0;
    }
    if i > 1 {
      var r1 := Kmap(data)[1];
      assert (r1.virt + r1.size - 1) / 4096 < data / 4096;
    }
  }

  lemma KernelOnly(data: nat, i: nat, w: nat)
    requires 0x8010_0000 < data < 0x8e00_0000 && data % 4096 == 0 && i <= 4 && w < USER
    ensures KernelPte(data, i, w) == 0
  {
  }

  /** What the kernel half must hold at page number w: memory up to 0x8e000 at its physical place, the devices
      at their own addresses, the kernel's text and read-only data not writable, and nothing for the user. */
  ghost predicate KernelAt(data: nat, w: nat, e: nat) {
    if 0x8_0000 <= w < 0x8_e000 then
      Present(e) && Frame(e) == w - 0x8_0000 && Flags(e) == if 0x8_0100 <= w < data / 4096 then 1 else 3
    else if 0xf_e000 <= w < SPACE then Present(e) && Frame(e) == w && Flags(e) == 3
    else !Present(e)
  }

  /** Row i puts what must be there at its page numbers, and touches no others. */
  lemma {:induction false} RowAt(data: nat, i: nat, w: nat)
    requires 0x8010_0000 < data < 0x8e00_0000 && data % 4096 == 0 && i < 4 && w < SPACE
    ensures var row := Kmap(data)[i];
            if row.virt / 4096 <= w <= (row.virt + row.size - 1) / 4096 then KernelAt(data, w, KernelPte(data, i + 1, w))
            else KernelPte(data, i + 1, w) == KernelPte(data, i, w)
  {
    var row := Kmap(data)[i];
    if row.virt / 4096 <= w <= (row.virt + row.size - 1) / 4096 {
      EntryParts(row.phys / 4096 + (w - row.virt / 4096), WithPresent(row.perm));
    }
  }

  /** The four rows together are what the kernel half must hold. */
  lemma {:induction false} KernelRows(data: nat, w: nat)
    requires 0x8010_0000 < data < 0x8e00_0000 && data % 4096 == 0 && w < SPACE
    ensures KernelAt(data, w, KernelPte(data, 4, w))
  {
    assert KernelPte(data, 0, w) == 0;
    RowAt(data, 0, w);
    RowAt(data, 1, w);
    RowAt(data, 2, w);
    RowAt(data, 3, w);
  }

  /** Directory d maps what the kernel half must hold, and no user page. */
  ghost predicate KernelSpace(data: nat, mem: Memory, d: nat) {
    d < |mem| && forall w {:trigger KernelAt(data, w, Pte(mem, d, w))} | 0 <= w < SPACE :: KernelAt(data, w, Pte(mem, d, w))
  }

  lemma {:induction false} RowsFill(data: nat, mem: Memory, d: nat)
    requires 0x8010_0000 < data < 0x8e00_0000 && data % 4096 == 0 && d < |mem|
    requires forall w | 0 <= w < SPACE :: Pte(mem, d, w) == KernelPte(data, 4, w)
    ensures KernelSpace(data, mem, d)
  {
    forall w | 0 <= w < SPACE
      ensures KernelAt(data, w, Pte(mem, d, w))
    {
      KernelRows(data, w);
    }
  }

  // ----- an address space c that did not exist in s -----

  /** All pages that c has were free; nothing else has changed. */
  ghost predicate New(s: Phys, s': Phys, c: nat) {
    && VmOk(s) && |s'.mem| == |s.mem| && |s'.use| == |s.use| && 0 < c < |s.use| && s.use[c] == Free
    && (forall f {:trigger s'.use[f]} | 0 <= f < |s.use| :: s'.use[f] == s.use[f] || (s.use[f] == Free && PartOf(s'.use[f], f, c)))
    && (forall f {:trigger s'.mem[f]} | 0 <= f < |s.use| && s.use[f] != Free :: s'.mem[f] == s.mem[f])
  }

  lemma NewDir(s: Phys, s': Phys, c: nat)
    requires VmOk(s) && 0 < c < |s.use| && s.use[c] == Free && s' == Phys(s.mem[c := ZeroPage()], s.use[c := Dir])
    ensures VmOk(s') && New(s, s', c) && forall w | 0 <= w < SPACE :: Pte(s'.mem, c, w) == 0
  {
    var zeroed := Phys(s.mem[c := ZeroPage()], s.use[c := Kernel]);
    LooseChange(s, zeroed, c);
    DirAdded(zeroed, c);
    assert s'.use == zeroed.use[c := Dir];
  }

  /** Nothing that was in use in s is part of c. */
  lemma NotPart(s: Phys, c: nat, f: nat)
    requires VmOk(s) && c < |s.use| && s.use[c] == Free && f < |s.use| && s.use[f] != Free
    ensures !PartOf(s.use[f], f, c)
  {
    assert FrameOk(s, f);
  }

  lemma NewKernelRow(s: Phys, s': Phys, s'': Phys, c: nat, v: nat, n: nat, frame: nat, flags: nat)
    requires New(s, s', c) && Mapped(s', s'', c, v, n, frame, flags) && v >= USER
    ensures New(s, s'', c) && c < |s''.use| == |s''.mem| && s''.use[c] == Dir
  {
    forall f | 0 <= f < |s.use|
      ensures s''.use[f] == s.use[f] || (s.use[f] == Free && PartOf(s''.use[f], f, c))
      ensures s.use[f] != Free ==> s''.mem[f] == s.mem[f]
    {
      assert MappedUse(s', s'', c, v, n, frame, f);
      if s.use[f] != Free {
        NotPart(s, c, f);
      }
    }
  }

  /** Page p is filled with words and mapped at page number v of c. */
  lemma NewUserPage(s: Phys, s': Phys, s1: Phys, s'': Phys, c: nat, v: nat, p: nat, flags: nat)
    requires New(s, s', c) && 0 < p < |s.use| && s'.use[p] == Free && v < USER
    requires |s1.mem| == |s.mem| && s1.use == s'.use[p := Kernel] && forall f | 0 <= f < |s.use| && f != p :: s1.mem[f] == s'.mem[f]
    requires Mapped(s1, s'', c, v, 1, p, flags)
    ensures New(s, s'', c) && s''.mem[p] == s1.mem[p] && s''.use[p] == User(c, v)
  {
    forall f | 0 <= f < |s.use|
      ensures s''.use[f] == s.use[f] || (s.use[f] == Free && PartOf(s''.use[f], f, c))
      ensures s.use[f] != Free ==> s''.mem[f] == s.mem[f]
    {
      assert MappedUse(s1, s'', c, v, 1, p, f);
      assert s'.use[f] == s.use[f] || (s.use[f] == Free && PartOf(s'.use[f], f, c));
      if s.use[f] != Free {
        NotPart(s, c, f);
      }
    }
    assert MappedUse(s1, s'', c, v, 1, p, p);
  }

  /** The words of a free page do not matter. */
  lemma NewLoose(s: Phys, s': Phys, s'': Phys, c: nat, p: nat)
    requires New(s, s', c) && 0 < p < |s.use| && s'.use[p] == Free && s''.use == s'.use && |s''.mem| == |s.mem|
    requires forall f | 0 <= f < |s.use| && f != p :: s''.mem[f] == s'.mem[f]
    ensures New(s, s'', c)
  {
  }

  /** The pages of c are all given back. */
  lemma NewGone(s: Phys, s': Phys, s'': Phys, c: nat)
    requires New(s, s', c) && Gone(s', s'', c)
    ensures s''.use == s.use && |s''.mem| == |s.mem| && forall f | 0 <= f < |s.use| && s.use[f] != Free :: s''.mem[f] == s.mem[f]
  {
    forall f | 0 <= f < |s.use|
      ensures s''.use[f] == s.use[f]
      ensures s.use[f] != Free ==> s''.mem[f] == s.mem[f]
    {
      if s.use[f] != Free {
        NotPart(s, c, f);
      }
    }
  }

  // ----- copyuvm -----

  /** The first v pages of c are copies of those of d; the rest of the user half of c is empty, and its kernel
      half is what it must be. */
  ghost predicate Copied(s: Phys, s': Phys, d: nat, c: nat, v: nat, data: nat) {
    && New(s, s', c) && VmOk(s') && d < |s.use| && s.use[d] == Dir && s'.use[c] == Dir && v <= USER
    && (forall w {:trigger CopyAt(s, s', d, c, w)} | 0 <= w < v :: CopyAt(s, s', d, c, w))
    && (forall w {:trigger Pte(s'.mem, c, w)} | v <= w < USER :: !Present(Pte(s'.mem, c, w)))
    && (forall w {:trigger KernelAt(data, w, Pte(s'.mem, c, w))} | USER <= w < SPACE :: KernelAt(data, w, Pte(s'.mem, c, w)))
  }

  /** Page number w has the same words and flags below c as below d, in a page that was free. */
  ghost predicate CopyAt(s: Phys, s': Phys, d: nat, c: nat, w: nat)
    requires d < |s.mem| && c < |s'.mem| && w < SPACE
  {
    var e, e' := Pte(s.mem, d, w), Pte(s'.mem, c, w);
    && Present(e') && Flags(e') == Flags(e)
    && Frame(e) < |s.mem| && Frame(e') < |s'.mem| && Frame(e') < |s.use| && s.use[Frame(e')] == Free
    && s'.mem[Frame(e')] == s.mem[Frame(e)]
  }

  /** The parent's entries are the same as long as only c is built. */
  lemma ParentSame(s: Phys, s': Phys, d: nat, c: nat, w: nat)
    requires New(s, s', c) && d < |s.use| && s.use[d] == Dir && w < SPACE
    ensures s'.use[d] == Dir && s'.mem[d] == s.mem[d] && Pte(s'.mem, d, w) == Pte(s.mem, d, w)
    ensures w < USER && Present(Pte(s.mem, d, w)) ==>
              Frame(Pte(s.mem, d, w)) < |s.mem| && s.use[Frame(Pte(s.mem, d, w))] != Free && s'.mem[Frame(Pte(s.mem, d, w))] == s.mem[Frame(Pte(s.mem, d, w))]
  {
    assert PdeOk(s, d, w / 1024);
    assert w < USER ==> PteOk(s, d, w);
  }

  /** One turn of the loop of copyuvm. */
  lemma CopiedOne(s: Phys, s': Phys, s1: Phys, s'': Phys, d: nat, c: nat, v: nat, p: nat, flags: nat, data: nat)
    requires Copied(s, s', d, c, v, data) && v < USER && 0 < p < |s.use| && s'.use[p] == Free && Present(Pte(s.mem, d, v))
    requires Frame(Pte(s.mem, d, v)) < |s.mem| && flags == Flags(Pte(s.mem, d, v))
    requires s1 == Phys(s'.mem[p := s.mem[Frame(Pte(s.mem, d, v))]], s'.use[p := Kernel]) && Mapped(s1, s'', c, v, 1, p, flags)
    ensures Copied(s, s'', d, c, v + 1, data)
  {
    NewUserPage(s, s', s1, s'', c, v, p, flags);
    LooseChange(s', s1, p);
    PartsEntry(Pte(s.mem, d, v));
    EntryParts(p, flags);
    hide Pte;
    hide Entry;
    hide Frame;
    hide Flags;
    hide Present;
    assert s''.use[c] == Dir && VmOk(s'') && forall w | 0 <= w < SPACE ::
      Pte(s''.mem, c, w) == if w == v then Entry(p, flags) else Pte(s'.mem, c, w);
    assert CopyAt(s, s'', d, c, v);
    forall w | 0 <= w < v
      ensures CopyAt(s, s'', d, c, w)
    {
      assert CopyAt(s, s', d, c, w) && PteOk(s', c, w);
      PageUntouched(s', s1, s'', c, v, p, flags, w);
    }
  }

  /** Mapping one more page leaves the words of the pages before it. */
  lemma PageUntouched(s': Phys, s1: Phys, s'': Phys, c: nat, v: nat, p: nat, flags: nat, w: nat)
    requires VmOk(s') && 0 < p < |s'.use| && s'.use[p] == Free && s1.use == s'.use[p := Kernel] && |s1.mem| == |s'.mem|
    requires forall f | 0 <= f < |s'.use| && f != p :: s1.mem[f] == s'.mem[f]
    requires Mapped(s1, s'', c, v, 1, p, flags) && w < USER && c < |s'.use| && s'.use[c] == Dir && PteOk(s', c, w) && Present(Pte(s'.mem, c, w))
    ensures Frame(Pte(s'.mem, c, w)) < |s'.mem| == |s''.mem| && s''.mem[Frame(Pte(s'.mem, c, w))] == s'.mem[Frame(Pte(s'.mem, c, w))]
  {
  }

  // ----- allocuvm -----

  /** Page number w of d has got a page that was free and is zero now. */
  ghost predicate FreshAt(s: Phys, s': Phys, d: nat, w: nat)
    requires d < |s'.mem| && w < SPACE
  {
    var e := Pte(s'.mem, d, w);
    Present(e) && Flags(e) == 7 && 0 < Frame(e) < |s.use| && Frame(e) < |s'.mem| && s.use[Frame(e)] == Free && s'.mem[Frame(e)] == ZeroPage()
  }

  /** Page f has its old use, or it was free and is a table of d or a user page of d from lo to hi. */
  ghost predicate GrownUse(s: Phys, s': Phys, d: nat, lo: nat, hi: nat, f: nat)
    requires f < |s.use| && f < |s'.use|
  {
    SameOrTable(s, s', d, f) || (s.use[f] == Free && UserOf(s'.use[f], d) && lo <= s'.use[f].v < hi)
  }

  /** d has gained zeroed pages from page number lo to hi. */
  ghost predicate Grown(s: Phys, s': Phys, d: nat, lo: nat, hi: nat) {
    && VmOk(s) && VmOk(s') && Untouched(s, s', d) && d < |s.use| && s.use[d] == Dir && s'.use[d] == Dir && hi <= USER
    && (forall w {:trigger FreshAt(s, s', d, w)} | lo <= w < hi :: FreshAt(s, s', d, w))
    && (forall w {:trigger Pte(s'.mem, d, w)} | 0 <= w < SPACE && !(lo <= w < hi) :: Pte(s'.mem, d, w) == Pte(s.mem, d, w))
    && (forall f {:trigger GrownUse(s, s', d, lo, hi, f)} | 0 <= f < |s.use| :: GrownUse(s, s', d, lo, hi, f))
  }

  lemma GrownNone(s: Phys, d: nat, lo: nat)
    requires VmOk(s) && d < |s.use| && s.use[d] == Dir && lo <= USER
    ensures Grown(s, s, d, lo, lo)
  {
  }

  /** One turn of the loop of allocuvm. */
  lemma GrownOne(s: Phys, s': Phys, s1: Phys, s'': Phys, d: nat, lo: nat, v: nat, p: nat)
    requires Grown(s, s', d, lo, v) && lo <= v < USER && 0 < p < |s.use| && s'.use[p] == Free
    requires s1 == Phys(s'.mem[p := ZeroPage()], s'.use[p := Kernel]) && Mapped(s1, s'', d, v, 1, p, 7)
    ensures Grown(s, s'', d, lo, v + 1)
  {
    LooseChange(s', s1, p);
    EntryParts(p, 7);
    assert Present(7);
    hide Pte;
    hide Entry;
    hide Frame;
    hide Flags;
    hide Present;
    assert GrownUse(s, s', d, lo, v, p);
    assert MappedUse(s1, s'', d, v, 1, p, p);
    assert forall w | 0 <= w < SPACE :: Pte(s''.mem, d, w) == if w == v then Entry(p, 7) else Pte(s'.mem, d, w);
    forall w | lo <= w < v
      ensures FreshAt(s, s'', d, w)
    {
      assert FreshAt(s, s', d, w) && PteOk(s', d, w);
      PageUntouched(s', s1, s'', d, v, p, 7, w);
    }
    assert FreshAt(s, s'', d, v);
    var hi := v + 1;
    forall f | 0 <= f < |s.use|
      ensures GrownUse(s, s'', d, lo, hi, f)
      ensures s.use[f] != Free && f != d && !TableOf(s.use[f], d) ==> s''.mem[f] == s.mem[f]
    {
      assert GrownUse(s, s', d, lo, v, f) && MappedUse(s1, s'', d, v, 1, p, f);
    }
  }

  /** A failed allocuvm: the entries are as before, and d may have kept new tables. */
  ghost predicate Undone(s: Phys, s': Phys, d: nat) {
    && VmOk(s') && Untouched(s, s', d) && d < |s.use| && s'.use[d] == Dir
    && (forall w {:trigger Pte(s'.mem, d, w)} | 0 <= w < SPACE ::
          (Present(Pte(s'.mem, d, w)) <==> Present(Pte(s.mem, d, w))) && (Present(Pte(s.mem, d, w)) ==> Pte(s'.mem, d, w) == Pte(s.mem, d, w)))
    && (forall f {:trigger SameOrTable(s, s', d, f)} | 0 <= f < |s.use| :: SameOrTable(s, s', d, f))
  }

  lemma GrownUndone(s: Phys, s': Phys, s'': Phys, d: nat, lo: nat, v: nat, hi: nat)
    requires Grown(s, s', d, lo, v) && Unmapped(s', s'', d, lo, hi) && lo <= v <= hi <= USER
    requires forall w | lo <= w < hi :: !Present(Pte(s.mem, d, w))
    ensures Undone(s, s'', d)
  {
    forall w | 0 <= w < SPACE
      ensures (Present(Pte(s''.mem, d, w)) <==> Present(Pte(s.mem, d, w))) && (Present(Pte(s.mem, d, w)) ==> Pte(s''.mem, d, w) == Pte(s.mem, d, w))
    {
      assert lo <= w < v ==> FreshAt(s, s', d, w);
      assert !(lo <= w < v) ==> Pte(s'.mem, d, w) == Pte(s.mem, d, w);
    }
    forall f | 0 <= f < |s.use|
      ensures SameOrTable(s, s'', d, f)
      ensures s.use[f] != Free && f != d && !TableOf(s.use[f], d) ==> s''.mem[f] == s.mem[f]
    {
      assert GrownUse(s, s', d, lo, v, f) && FrameOk(s, f) && FrameOk(s', f);
      UserBelow(s, s', d, lo, v, hi, f);
    }
  }

  /** The pages that d had before are not between lo and hi. */
  lemma UserBelow(s: Phys, s': Phys, d: nat, lo: nat, v: nat, hi: nat, f: nat)
    requires Grown(s, s', d, lo, v) && lo <= v <= hi <= USER && f < |s.use|
    requires forall w | lo <= w < hi :: !Present(Pte(s.mem, d, w))
    ensures UserOf(s.use[f], d) ==> !(lo <= s.use[f].v < hi)
  {
    assert FrameOk(s, f);
  }

  /** The same state with page p, which is free, taken aside and filled with zeroes. */
  function Aside(s: Phys, p: nat): Phys
    requires p < |s.mem| && p < |s.use|
  {
    Phys(s.mem[p := ZeroPage()], s.use[p := Kernel])
  }

  lemma GrownAside(s: Phys, s': Phys, d: nat, lo: nat, v: nat, p: nat)
    requires Grown(s, s', d, lo, v) && 0 < p < |s.use| && s'.use[p] == Free
    ensures Grown(Aside(s, p), Aside(s', p), d, lo, v)
    ensures forall w | 0 <= w < SPACE :: Pte(Aside(s, p).mem, d, w) == Pte(s.mem, d, w)
  {
    assert GrownUse(s, s', d, lo, v, p);
    LooseChange(s, Aside(s, p), p);
    LooseChange(s', Aside(s', p), p);
    forall w | lo <= w < v
      ensures FreshAt(Aside(s, p), Aside(s', p), d, w)
    {
      assert FreshAt(s, s', d, w) && PteOk(s', d, w);
    }
    forall f | 0 <= f < |s.use|
      ensures GrownUse(Aside(s, p), Aside(s', p), d, lo, v, f)
    {
      assert GrownUse(s, s', d, lo, v, f);
    }
  }

  lemma UndoneAside(s: Phys, s': Phys, s'': Phys, d: nat, p: nat)
    requires VmOk(s) && 0 < p < |s.use| && s.use[p] == Free && d < |s.use| && s.use[d] == Dir && Undone(Aside(s, p), s', d) && s'.use[p] == Kernel
    requires VmOk(s'') && |s''.mem| == |s.mem| && s''.use == s'.use[p := Free] && forall f | 0 <= f < |s.use| && f != p :: s''.mem[f] == s'.mem[f]
    ensures Undone(s, s'', d)
  {
    LooseChange(s, Aside(s, p), p);
    LooseChange(s', s'', p);
    forall f | 0 <= f < |s.use|
      ensures SameOrTable(s, s'', d, f)
    {
      assert SameOrTable(Aside(s, p), s', d, f);
    }
  }
}
