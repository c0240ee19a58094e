/** How many page tables a range of page numbers needs, on values. */
module VmTables {
  import opened VmModel
  import opened VmSpace
  import opened VmCopy

  /** Filling the range from lo on in order, page number v is the first that needs its table. */
  predicate NeedsTable(dir: Page, lo: nat, v: nat)
    requires v < SPACE
  {
    !Present(dir[v / 1024]) && (v == lo || v % 1024 == 0)
  }

  /** The page tables that the page numbers from lo to hi lack. */
  function Missing(dir: Page, lo: nat, hi: nat): nat
    requires hi <= SPACE
  {
    if hi <= lo then 0 else Missing(dir, lo, hi - 1) + (if NeedsTable(dir, lo, hi - 1) then 1 else 0)
  }

  /** dir' has the entries of dir and those of the page numbers from lo to v. */
  ghost predicate Filled(dir: Page, dir': Page, lo: nat, v: nat) {
    forall x {:trigger dir'[x]} | 0 <= x < 1024 :: Present(dir'[x]) <==> Present(dir[x]) || (lo < v && lo / 1024 <= x <= (v - 1) / 1024)
  }

  /** dir' has the entries of dir and entry x. */
  ghost predicate Entered(dir: Page, dir': Page, x: nat) {
    forall y {:trigger dir'[y]} | 0 <= y < 1024 :: Present(dir'[y]) <==> Present(dir[y]) || y == x
  }

  lemma {:induction false} FilledNone(dir: Page, lo: nat)
    ensures Filled(dir, dir, lo, lo) && (lo <= SPACE ==> Missing(dir, lo, lo) == 0)
  {
  }

  lemma FilledNext(dir: Page, dir': Page, lo: nat, v: nat)
    requires Filled(dir, dir', lo, v) && lo <= v < SPACE
    ensures !Present(dir'[v / 1024]) <==> NeedsTable(dir, lo, v)
  {
  }

  lemma FilledOne(dir: Page, dir': Page, dir'': Page, lo: nat, v: nat)
    requires Filled(dir, dir', lo, v) && lo <= v < SPACE && Entered(dir', dir'', v / 1024)
    ensures Filled(dir, dir'', lo, v + 1)
    ensures Missing(dir, lo, v + 1) == Missing(dir, lo, v) + (if Present(dir'[v / 1024]) then 0 else 1)
  {
    FilledNext(dir, dir', lo, v);
    assert forall x | 0 <= x < 1024 :: Present(dir''[x]) <==> Present(dir'[x]) || x == v / 1024;
    assert lo < v ==> v / 1024 - 1 <= (v - 1) / 1024 <= v / 1024;
  }

  /** Mapping the page numbers from lo to v has added the tables they lacked: of n free pages, left are left. */
  ghost predicate Counted(s: Phys, s': Phys, n: nat, left: nat, d: nat, lo: nat, v: nat) {
    && d < |s.mem| && d < |s'.mem| && lo <= v <= SPACE
    && Filled(s.mem[d], s'.mem[d], lo, v) && left + Missing(s.mem[d], lo, v) == n
  }

  lemma CountedNone(s: Phys, n: nat, d: nat, lo: nat)
    requires d < |s.mem| && lo <= SPACE
    ensures Counted(s, s, n, n, d, lo, lo)
  {
  }

  lemma CountedOne(s: Phys, s': Phys, s'': Phys, n: nat, left: nat, left': nat, d: nat, lo: nat, v: nat)
    requires Counted(s, s', n, left, d, lo, v) && v < SPACE && d < |s''.mem| && Entered(s'.mem[d], s''.mem[d], v / 1024)
    requires left' + (if Present(s'.mem[d][v / 1024]) then 0 else 1) == left
    ensures Counted(s, s'', n, left', d, lo, v + 1)
  {
    FilledOne(s.mem[d], s'.mem[d], s''.mem[d], lo, v);
  }

  lemma CountedStops(s: Phys, s': Phys, n: nat, left: nat, d: nat, lo: nat, v: nat)
    requires Counted(s, s', n, left, d, lo, v) && v < SPACE && !Present(s'.mem[d][v / 1024])
    ensures NeedsTable(s.mem[d], lo, v)
  {
    FilledNext(s.mem[d], s'.mem[d], lo, v);
  }

  /** Whoever fills the range further takes at least this table. */
  lemma {:induction false} MissingGrows(dir: Page, lo: nat, v: nat, hi: nat)
    requires lo <= v <= hi <= SPACE
    ensures Missing(dir, lo, v) <= Missing(dir, lo, hi)
    ensures v < hi && NeedsTable(dir, lo, v) ==> Missing(dir, lo, v) < Missing(dir, lo, hi)
    decreases hi
  {
    if v < hi {
      MissingGrows(dir, lo, v, hi - 1);
    }
  }

  /** Tables are missing exactly if some page number of the range has none. */
  lemma {:induction false} MissingNone(dir: Page, lo: nat, hi: nat)
    requires lo <= hi <= SPACE
    ensures Missing(dir, lo, hi) == 0 <==> forall w | lo <= w < hi :: Present(dir[w / 1024])
  {
    if lo < hi {
      MissingNone(dir, lo, hi - 1);
      var w := hi - 1;
      if !Present(dir[w / 1024]) && !NeedsTable(dir, lo, w) {
        assert (w - 1) / 1024 == w / 1024;
      }
    }
  }

  /** In a range in which the tables up to number b are there and no others. */
  lemma {:induction false} MissingIs(dir: Page, lo: nat, hi: nat, b: int)
    requires lo < hi <= SPACE && lo / 1024 - 1 <= b
    requires forall x | lo / 1024 <= x <= (hi - 1) / 1024 :: Present(dir[x]) <==> x <= b
    ensures Missing(dir, lo, hi) == if (hi - 1) / 1024 <= b then 0 else (hi - 1) / 1024 - b
  {
    var w := hi - 1;
    if lo < w {
      assert w / 1024 - 1 <= (w - 1) / 1024 <= w / 1024;
      assert (w - 1) / 1024 == w / 1024 <==> w % 1024 != 0;
      MissingIs(dir, lo, w, b);
    } else {
      assert Missing(dir, lo, lo) == 0;
    }
  }

  // ----- a failed allocuvm -----

  /** allocuvm of the page numbers from lo to hi, with n pages in the pool, has mapped those up to v and
      then finds no page, or no page for the table that v needs. */
  ghost predicate StopsAt(dir: Page, lo: nat, v: nat, hi: nat, n: nat) {
    && lo <= v < hi <= SPACE
    && (n == v - lo + Missing(dir, lo, v) || (n == v - lo + Missing(dir, lo, v) + 1 && NeedsTable(dir, lo, v)))
  }

  /** The page numbers from lo to hi need no table before the pool of n pages is empty. */
  ghost predicate NoTableReached(dir: Page, lo: nat, hi: nat, n: nat)
    requires hi <= SPACE
  {
    forall m | lo <= m < hi && !Present(dir[m / 1024]) :: n <= m - lo + 1
  }

  lemma {:induction false} StopsEarly(dir: Page, lo: nat, v: nat, hi: nat, n: nat)
    requires StopsAt(dir, lo, v, hi, n)
    ensures n < hi - lo + Missing(dir, lo, hi)
    ensures Missing(dir, lo, v) == 0 <==> NoTableReached(dir, lo, hi, n)
  {
    MissingGrows(dir, lo, v, hi);
    MissingNone(dir, lo, v);
  }

  /** A failed allocuvm leaves the use of every page as it was exactly if it had added no table. */
  lemma {:induction false} TablesKept(s: Phys, s': Phys, d: nat, lo: nat, v: nat)
    requires VmOk(s) && Undone(s, s', d) && s.use[d] == Dir && lo <= v <= SPACE && Filled(s.mem[d], s'.mem[d], lo, v)
    ensures s'.use == s.use <==> Missing(s.mem[d], lo, v) == 0
  {
    MissingNone(s.mem[d], lo, v);
    if Missing(s.mem[d], lo, v) == 0 {
      forall f | 0 <= f < |s.use|
        ensures s'.use[f] == s.use[f]
      {
        assert SameOrTable(s, s', d, f) && FrameOk(s', f);
        if TableOf(s'.use[f], d) {
          FilledSame(s.mem[d], s'.mem[d], lo, v, s'.use[f].x);
          NoNewTable(s, s', d, f);
        }
      }
    } else {
      var w :| lo <= w < v && !Present(s.mem[d][w / 1024]);
      assert Present(s'.mem[d][w / 1024]) && PdeOk(s', d, w / 1024);
      assert FrameOk(s, Frame(s'.mem[d][w / 1024]));
    }
  }

  lemma FilledSame(dir: Page, dir': Page, lo: nat, v: nat, x: nat)
    requires Filled(dir, dir', lo, v) && lo <= v <= SPACE && x < 1024 && forall w | lo <= w < v :: Present(dir[w / 1024])
    ensures Present(dir'[x]) <==> Present(dir[x])
  {
    if lo < v && lo / 1024 <= x <= (v - 1) / 1024 {
      var w := if 1024 * x < lo then lo else 1024 * x;
      assert w / 1024 == x;
    }
  }

  /** A table whose entry was there before is the old one. */
  lemma NoNewTable(s: Phys, s': Phys, d: nat, f: nat)
    requires VmOk(s) && Undone(s, s', d) && s.use[d] == Dir && f < |s.use| && TableOf(s'.use[f], d)
    requires FrameOk(s', f) && s'.use[f].x < 1024 && Present(s.mem[d][s'.use[f].x])
    ensures s'.use[f] == s.use[f]
  {
    var x := s'.use[f].x;
    var g := Frame(s.mem[d][x]);
    assert PdeOk(s, d, x) && SameOrTable(s, s', d, g) && FrameOk(s', g);
  }

  /** allocuvm has mapped the page numbers from lo to v: of n free pages, left are left. */
  ghost predicate Tally(s: Phys, s': Phys, n: nat, left: nat, d: nat, lo: nat, v: nat) {
    && d < |s.mem| && d < |s'.mem| && lo <= v <= SPACE
    && Filled(s.mem[d], s'.mem[d], lo, v) && left + (v - lo) + Missing(s.mem[d], lo, v) == n
  }

  lemma TallyOne(s: Phys, s': Phys, s'': Phys, n: nat, left: nat, left': nat, d: nat, lo: nat, v: nat)
    requires Tally(s, s', n, left + 1, d, lo, v) && v < SPACE && d < |s''.mem|
    requires Counted(s', s'', left, left', d, v, v + 1)
    ensures Tally(s, s'', n, left', d, lo, v + 1)
  {
    assert Entered(s'.mem[d], s''.mem[d], v / 1024);
    FilledOne(s.mem[d], s'.mem[d], s''.mem[d], lo, v);
    assert Missing(s'.mem[d], v, v) == 0;
  }

  lemma TallyStops(s: Phys, s': Phys, n: nat, d: nat, lo: nat, v: nat)
    requires Tally(s, s', n, 1, d, lo, v) && v < SPACE && NeedsTable(s'.mem[d], v, v)
    ensures NeedsTable(s.mem[d], lo, v)
  {
    FilledNext(s.mem[d], s'.mem[d], lo, v);
  }

  /** What a failed allocuvm of the page numbers from lo to hi, with n free pages, leaves behind. */
  ghost predicate Failed(s: Phys, s': Phys, n: nat, d: nat, lo: nat, hi: nat, v: nat) {
    && Undone(s, s', d) && d < |s.mem| && StopsAt(s.mem[d], lo, v, hi, n) && Filled(s.mem[d], s'.mem[d], lo, v)
  }

  // ----- new address spaces -----

  /** The tables that setupkvm has added after k rows, with the kernel's data from data on. */
  predicate KernelTable(data: nat, k: nat, x: nat) {
    (k > 0 && 512 <= x <= LastTable(data, k)) || (k == 4 && 1016 <= x)
  }

  /** The last table of the first rows, which follow each other. */
  function LastTable(data: nat, k: nat): nat {
    if k == 0 then 511 else if k == 1 then 512 else if k == 2 && data > 0 then (data - 1) / 0x40_0000 else 567
  }

  function KernelTables(data: nat, k: nat): int {
    LastTable(data, k) - 511 + if k == 4 then 8 else 0
  }

  /** The directory has exactly the tables of the first k rows. */
  ghost predicate KernelDir(data: nat, k: nat, dir: Page) {
    forall x {:trigger dir[x]} | 0 <= x < 1024 :: Present(dir[x]) <==> KernelTable(data, k, x)
  }

  /** The page numbers of row k. */
  function RowLow(data: nat, k: nat): nat
    requires 0x8010_0000 < data < 0x8e00_0000 && k < 4
  {
    Kmap(data)[k].virt / 4096
  }

  function RowHigh(data: nat, k: nat): (hi: nat)
    requires 0x8010_0000 < data < 0x8e00_0000 && k < 4
    ensures RowLow(data, k) < hi <= SPACE
  {
    (Kmap(data)[k].virt + Kmap(data)[k].size - 1) / 4096 + 1
  }

  lemma RowSpan(data: nat, k: nat)
    requires 0x8010_0000 < data < 0x8e00_0000 && data % 4096 == 0 && k < 4
    ensures RowLow(data, k) / 1024 == if k < 2 then 512 else if k == 2 then data / 0x40_0000 else 1016
    ensures (RowHigh(data, k) - 1) / 1024 == if k == 3 then 1023 else LastTable(data, k + 1)
  {
  }

  /** The tables that row k of kmap lacks after the rows before it. */
  lemma {:induction false} RowTables(data: nat, k: nat, dir: Page)
    requires 0x8010_0000 < data < 0x8e00_0000 && data % 4096 == 0 && k < 4 && KernelDir(data, k, dir)
    ensures Missing(dir, RowLow(data, k), RowHigh(data, k)) == KernelTables(data, k + 1) - KernelTables(data, k)
  {
    RowSpan(data, k);
    hide RowLow;
    hide RowHigh;
    MissingIs(dir, RowLow(data, k), RowHigh(data, k), if k == 3 then 1015 else LastTable(data, k));
  }

  lemma RowFilled(data: nat, k: nat, dir: Page, dir': Page)
    requires 0x8010_0000 < data < 0x8e00_0000 && data % 4096 == 0 && k < 4 && KernelDir(data, k, dir)
    requires Filled(dir, dir', RowLow(data, k), RowHigh(data, k))
    ensures KernelDir(data, k + 1, dir')
  {
    RowSpan(data, k);
  }

  /** A new address space that has grown is a new address space. */
  lemma NewGrown(s: Phys, s': Phys, s'': Phys, c: nat, lo: nat, hi: nat)
    requires New(s, s', c) && Grown(s', s'', c, lo, hi)
    ensures New(s, s'', c) && s''.use[c] == Dir
  {
    forall f | 0 <= f < |s.use|
      ensures s''.use[f] == s.use[f] || (s.use[f] == Free && PartOf(s''.use[f], f, c))
      ensures s.use[f] != Free ==> s''.mem[f] == s.mem[f]
    {
      assert GrownUse(s', s'', c, lo, hi, f);
      if s.use[f] != Free {
        NotPart(s, c, f);
      }
    }
  }

  lemma NewUndone(s: Phys, s': Phys, s'': Phys, c: nat)
    requires New(s, s', c) && Undone(s', s'', c)
    ensures New(s, s'', c) && s''.use[c] == Dir
  {
    forall f | 0 <= f < |s.use|
      ensures s''.use[f] == s.use[f] || (s.use[f] == Free && PartOf(s''.use[f], f, c))
      ensures s.use[f] != Free ==> s''.mem[f] == s.mem[f]
    {
      assert SameOrTable(s', s'', c, f);
      if s.use[f] != Free {
        NotPart(s, c, f);
      }
    }
  }
}
