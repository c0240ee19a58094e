/** Physical pages, two-level page tables and the pool of free pages, on values. */
module VmModel {
  /** A page is 1024 words. */
  type Page = s: seq<nat> | |s| == 1024 witness seq(1024, i => 0)
  type Memory = seq<Page>

  /** Page numbers below this one are user addresses (KERNBASE / PGSIZE). */
  const USER: nat := 0x8_0000
  /** Page numbers of the whole address space. */
  const SPACE: nat := 0x10_0000

  function ZeroPage(): Page {
    seq(1024, i => 0)
  }

  // ----- entries of page directories and page tables -----

  /** PTE_P */
  predicate Present(e: nat) {
    e % 2 == 1
  }

  /** PTE_ADDR, as a frame number */
  function Frame(e: nat): nat {
    e / 4096
  }

  /** PTE_FLAGS */
  function Flags(e: nat): nat {
    e % 4096
  }

  function Entry(frame: nat, flags: nat): nat {
    4096 * frame + flags
  }

  lemma EntryParts(frame: nat, flags: nat)
    requires flags < 4096
    ensures Frame(Entry(frame, flags)) == frame && Flags(Entry(frame, flags)) == flags
    ensures Present(Entry(frame, flags)) <==> Present(flags)
  {
  }

  lemma PartsEntry(e: nat)
    ensures e == Entry(Frame(e), Flags(e)) && Flags(e) < 4096 && (Present(Flags(e)) <==> Present(e))
  {
  }

  /** perm | PTE_P */
  function WithPresent(perm: nat): nat {
    if Present(perm) then perm else perm + 1
  }

  // ----- the use of each frame -----

  /** Kernel is every use that vm.c does not manage, and a page between kalloc and its use. */
  datatype Use = Kernel | Free | Dir | Table(d: nat, x: nat) | User(d: nat, v: nat)

  datatype Phys = Phys(mem: Memory, use: seq<Use>)

  /** The page table entry for page number v below directory d, 0 without a table. */
  function Pte(mem: Memory, d: nat, v: nat): nat
    requires d < |mem| && v < SPACE
  {
    var e := mem[d][v / 1024];
    if Present(e) && Frame(e) < |mem| then mem[Frame(e)][v % 1024] else 0
  }

  /** A present directory entry names the table of that entry, with all permissions. */
  ghost predicate PdeOk(s: Phys, d: nat, x: nat)
    requires d < |s.mem| && x < 1024
  {
    var e := s.mem[d][x];
    Present(e) ==> Flags(e) == 7 && 0 < Frame(e) < |s.use| && s.use[Frame(e)] == Table(d, x)
  }

  /** A present user entry names the page of that entry. */
  ghost predicate PteOk(s: Phys, d: nat, v: nat)
    requires d < |s.mem| && v < USER
  {
    var e := Pte(s.mem, d, v);
    Present(e) ==> 0 < Frame(e) < |s.use| && s.use[Frame(e)] == User(d, v)
  }

  ghost predicate FrameOk(s: Phys, f: nat)
    requires f < |s.use| == |s.mem|
  {
    match s.use[f]
    case Table(d, x) => d < |s.use| && s.use[d] == Dir && x < 1024 && Present(s.mem[d][x]) && Frame(s.mem[d][x]) == f
    case User(d, v) => d < |s.use| && s.use[d] == Dir && v < USER && Present(Pte(s.mem, d, v)) && Frame(Pte(s.mem, d, v)) == f
    case _ => true
  }

  /** Every page table and every user page hangs below exactly one entry of exactly one directory. */
  ghost predicate VmOk(s: Phys) {
    && |s.use| == |s.mem| > 0 && s.use[0] == Kernel
    && (forall f {:trigger FrameOk(s, f)} | 0 <= f < |s.use| :: FrameOk(s, f))
    && (forall d, x {:trigger PdeOk(s, d, x)} | 0 <= d < |s.use| && s.use[d] == Dir && 0 <= x < 1024 :: PdeOk(s, d, x))
    && (forall d, v {:trigger PteOk(s, d, v)} | 0 <= d < |s.use| && s.use[d] == Dir && 0 <= v < USER :: PteOk(s, d, v))
  }

  // ----- frames without a place in an address space -----

  predicate Loose(u: Use) {
    u == Kernel || u == Free
  }

  /** Changing the words or the use of a loose frame, to a loose use, changes no address space. */
  lemma LooseChange(s: Phys, s': Phys, f: nat)
    requires VmOk(s) && 0 < f < |s.use| && Loose(s.use[f]) && |s'.mem| == |s.mem| && |s'.use| == |s.use| && Loose(s'.use[f])
    requires forall g | 0 <= g < |s.use| && g != f :: s'.use[g] == s.use[g] && s'.mem[g] == s.mem[g]
    ensures VmOk(s')
    ensures forall d, v | 0 <= d < |s.use| && s.use[d] == Dir && 0 <= v < SPACE :: Pte(s'.mem, d, v) == Pte(s.mem, d, v)
  {
    forall d, v | 0 <= d < |s.use| && s.use[d] == Dir && 0 <= v < SPACE
      ensures Pte(s'.mem, d, v) == Pte(s.mem, d, v)
    {
      assert PdeOk(s, d, v / 1024);
    }
    forall g | 0 <= g < |s'.use|
      ensures FrameOk(s', g)
    {
      assert FrameOk(s, g);
    }
    forall d, x | 0 <= d < |s'.use| && s'.use[d] == Dir && 0 <= x < 1024
      ensures PdeOk(s', d, x)
    {
      assert PdeOk(s, d, x);
    }
    forall d, v | 0 <= d < |s'.use| && s'.use[d] == Dir && 0 <= v < USER
      ensures PteOk(s', d, v)
    {
      assert PteOk(s, d, v);
    }
  }

  // ----- a new directory -----

  lemma DirAdded(s: Phys, d: nat)
    requires VmOk(s) && 0 < d < |s.use| && s.use[d] == Kernel && s.mem[d] == ZeroPage()
    ensures VmOk(s.(use := s.use[d := Dir])) && forall v | 0 <= v < SPACE :: Pte(s.mem, d, v) == 0
  {
    var s' := s.(use := s.use[d := Dir]);
    forall g | 0 <= g < |s'.use|
      ensures FrameOk(s', g)
    {
      assert FrameOk(s, g);
    }
    forall c, x | 0 <= c < |s'.use| && s'.use[c] == Dir && 0 <= x < 1024
      ensures PdeOk(s', c, x)
    {
      if c != d {
        assert PdeOk(s, c, x);
      }
    }
    forall c, v | 0 <= c < |s'.use| && s'.use[c] == Dir && 0 <= v < USER
      ensures PteOk(s', c, v)
    {
      if c != d {
        assert PteOk(s, c, v);
      }
    }
  }

  // ----- a new table -----

  function WithTable(s: Phys, d: nat, x: nat, t: nat): Phys
    requires d < |s.mem| && x < 1024 && t < |s.use|
  {
    Phys(s.mem[d := s.mem[d][x := Entry(t, 7)]], s.use[t := Table(d, x)])
  }

  lemma TableAdded(s: Phys, d: nat, x: nat, t: nat)
    requires VmOk(s) && d < |s.use| && s.use[d] == Dir && x < 1024 && !Present(s.mem[d][x])
    requires 0 < t < |s.use| && s.use[t] == Kernel && s.mem[t] == ZeroPage()
    ensures var s' := WithTable(s, d, x, t);
            && VmOk(s') && Present(s'.mem[d][x]) && Frame(s'.mem[d][x]) == t
            && forall c, v | 0 <= c < |s.use| && s.use[c] == Dir && 0 <= v < SPACE :: Pte(s'.mem, c, v) == Pte(s.mem, c, v)
  {
    var s' := WithTable(s, d, x, t);
    EntryParts(t, 7);
    forall c, v | 0 <= c < |s.use| && s.use[c] == Dir && 0 <= v < SPACE
      ensures Pte(s'.mem, c, v) == Pte(s.mem, c, v)
    {
      assert PdeOk(s, c, v / 1024);
    }
    forall g | 0 <= g < |s'.use|
      ensures FrameOk(s', g)
    {
      assert FrameOk(s, g);
    }
    forall c, y | 0 <= c < |s'.use| && s'.use[c] == Dir && 0 <= y < 1024
      ensures PdeOk(s', c, y)
    {
      assert PdeOk(s, c, y);
    }
    forall c, v | 0 <= c < |s'.use| && s'.use[c] == Dir && 0 <= v < USER
      ensures PteOk(s', c, v)
    {
      assert PteOk(s, c, v);
    }
  }

  // ----- a page table entry is written -----

  function WithPte(mem: Memory, d: nat, v: nat, e: nat): Memory
    requires d < |mem| && v < SPACE && Frame(mem[d][v / 1024]) < |mem|
  {
    var t := Frame(mem[d][v / 1024]);
    mem[t := mem[t][v % 1024 := e]]
  }

  /** Only the entry that is written changes, in all directories. */
  lemma PteWritten(s: Phys, d: nat, v: nat, e: nat, c: nat, w: nat)
    requires VmOk(s) && d < |s.use| && s.use[d] == Dir && v < SPACE && Present(s.mem[d][v / 1024]) && Frame(s.mem[d][v / 1024]) < |s.mem|
    requires c < |s.use| && s.use[c] == Dir && w < SPACE
    ensures var m := WithPte(s.mem, d, v, e);
            m[c] == s.mem[c] && Pte(m, c, w) == if c == d && w == v then e else Pte(s.mem, c, w)
  {
    assert PdeOk(s, d, v / 1024) && PdeOk(s, c, w / 1024);
    if c == d && w / 1024 == v / 1024 && w % 1024 == v % 1024 {
      assert w == v;
    }
  }

  /** A kernel entry is written, or a user page gets its entry, or loses it. */
  ghost predicate PteChange(s: Phys, d: nat, v: nat, e: nat, use': seq<Use>)
    requires d < |s.mem| && v < SPACE
  {
    && |use'| == |s.use|
    && if v >= USER then use' == s.use
       else if Present(e) then
         !Present(Pte(s.mem, d, v)) && 0 < Frame(e) < |s.use| && s.use[Frame(e)] == Kernel && use' == s.use[Frame(e) := User(d, v)]
       else if Present(Pte(s.mem, d, v)) then
         Frame(Pte(s.mem, d, v)) < |s.use| && use' == s.use[Frame(Pte(s.mem, d, v)) := Kernel]
       else use' == s.use
  }

  /** The entry may be written: its table is there, and the uses follow. */
  ghost predicate Writable(s: Phys, d: nat, v: nat, e: nat, use': seq<Use>) {
    && VmOk(s) && d < |s.use| && s.use[d] == Dir && v < SPACE && Present(s.mem[d][v / 1024]) && Frame(s.mem[d][v / 1024]) < |s.mem|
    && PteChange(s, d, v, e, use')
  }

  lemma ChangedFrame(s: Phys, d: nat, v: nat, e: nat, use': seq<Use>, g: nat)
    requires Writable(s, d, v, e, use') && g < |use'|
    ensures FrameOk(Phys(WithPte(s.mem, d, v, e), use'), g)
  {
    assert FrameOk(s, g) && PdeOk(s, d, v / 1024);
    assert v < USER ==> PteOk(s, d, v);
    PteWritten(s, d, v, e, d, v);
    if s.use[g].Table? {
      PteWritten(s, d, v, e, s.use[g].d, v);
    } else if s.use[g].User? {
      PteWritten(s, d, v, e, s.use[g].d, s.use[g].v);
    }
  }

  lemma ChangedPde(s: Phys, d: nat, v: nat, e: nat, use': seq<Use>, c: nat, x: nat)
    requires Writable(s, d, v, e, use') && c < |use'| && use'[c] == Dir && x < 1024
    ensures PdeOk(Phys(WithPte(s.mem, d, v, e), use'), c, x)
  {
    assert PdeOk(s, c, x);
    assert v < USER ==> PteOk(s, d, v);
    PteWritten(s, d, v, e, c, v);
  }

  lemma ChangedPte(s: Phys, d: nat, v: nat, e: nat, use': seq<Use>, c: nat, w: nat)
    requires Writable(s, d, v, e, use') && c < |use'| && use'[c] == Dir && w < USER
    ensures PteOk(Phys(WithPte(s.mem, d, v, e), use'), c, w)
  {
    assert PteOk(s, c, w);
    assert v < USER ==> PteOk(s, d, v);
    PteWritten(s, d, v, e, c, w);
  }

  lemma PteChangeOk(s: Phys, d: nat, v: nat, e: nat, use': seq<Use>)
    requires VmOk(s) && d < |s.use| && s.use[d] == Dir && v < SPACE && Present(s.mem[d][v / 1024]) && Frame(s.mem[d][v / 1024]) < |s.mem|
    requires PteChange(s, d, v, e, use')
    ensures VmOk(Phys(WithPte(s.mem, d, v, e), use'))
  {
    var s' := Phys(WithPte(s.mem, d, v, e), use');
    assert v < USER ==> PteOk(s, d, v);
    assert |s'.use| == |s'.mem| && s'.use[0] == Kernel;
    hide FrameOk;
    hide PdeOk;
    hide PteOk;
    forall g | 0 <= g < |s'.use|
      ensures FrameOk(s', g)
    {
      ChangedFrame(s, d, v, e, use', g);
    }
    forall c, x | 0 <= c < |s'.use| && s'.use[c] == Dir && 0 <= x < 1024
      ensures PdeOk(s', c, x)
    {
      ChangedPde(s, d, v, e, use', c, x);
    }
    forall c, w | 0 <= c < |s'.use| && s'.use[c] == Dir && 0 <= w < USER
      ensures PteOk(s', c, w)
    {
      ChangedPte(s, d, v, e, use', c, w);
    }
  }
}
