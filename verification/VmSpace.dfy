/** What the operations of vm.c and kalloc.c do to the pool and to one address space, on values. */
module VmSpace {
  import opened VmModel

  // ----- the pool -----

  /** What link i of the free list holds: the next free page, 0 at the end. */
  function Link(free: seq<nat>, i: nat): nat {
    if i < |free| then free[i] else 0
  }

  ghost predicate FreeAt(s: Phys, free: seq<nat>, i: nat)
    requires i < |free|
  {
    0 < free[i] < |s.mem| == |s.use| && s.use[free[i]] == Free && s.mem[free[i]][0] == Link(free, i + 1)
  }

  /** The free list runs through exactly the free pages, each once. */
  ghost predicate PoolOk(s: Phys, freelist: nat, free: seq<nat>) {
    && |s.use| == |s.mem| && freelist == Link(free, 0)
    && (forall i {:trigger FreeAt(s, free, i)} | 0 <= i < |free| :: FreeAt(s, free, i))
    && (forall i, j | 0 <= i < j < |free| :: free[i] != free[j])
    && (forall f {:trigger s.use[f]} | 0 <= f < |s.use| && s.use[f] == Free :: f in free)
  }

  /** The pool does not depend on pages that are not free. */
  lemma PoolFrame(s: Phys, s': Phys, freelist: nat, free: seq<nat>)
    requires PoolOk(s, freelist, free) && |s'.use| == |s'.mem| == |s.use|
    requires forall f | 0 <= f < |s.use| :: s'.use[f] == Free <==> s.use[f] == Free
    requires forall f | 0 <= f < |s.use| && s.use[f] == Free :: s'.mem[f] == s.mem[f]
    ensures PoolOk(s', freelist, free)
  {
    forall i | 0 <= i < |free|
      ensures FreeAt(s', free, i)
    {
      assert FreeAt(s, free, i);
    }
  }

  /** kfree's page: filled with ones, with the link in front. */
  function Junk(next: nat): Page {
    seq(1024, i => 0x0101_0101)[0 := next]
  }

  lemma PoolPush(s: Phys, freelist: nat, free: seq<nat>, f: nat)
    requires PoolOk(s, freelist, free) && 0 < f < |s.use| && s.use[f] != Free
    ensures PoolOk(Phys(s.mem[f := Junk(freelist)], s.use[f := Free]), f, [f] + free)
  {
    var s', free' := Phys(s.mem[f := Junk(freelist)], s.use[f := Free]), [f] + free;
    forall i | 0 <= i < |free|
      ensures free[i] != f
    {
      assert FreeAt(s, free, i);
    }
    forall i | 0 <= i < |free'|
      ensures FreeAt(s', free', i)
    {
      if i > 0 {
        assert FreeAt(s, free, i - 1);
      }
    }
    forall g | 0 <= g < |s'.use| && s'.use[g] == Free
      ensures g in free'
    {
      if g != f {
        var i :| 0 <= i < |free| && free[i] == g;
        assert free'[i + 1] == g;
      } else {
        assert free'[0] == g;
      }
    }
  }

  lemma PoolPop(s: Phys, freelist: nat, free: seq<nat>)
    requires PoolOk(s, freelist, free) && free != []
    ensures FreeAt(s, free, 0) && PoolOk(s.(use := s.use[free[0] := Kernel]), s.mem[free[0]][0], free[1..])
  {
    assert FreeAt(s, free, 0);
    var s', free' := s.(use := s.use[free[0] := Kernel]), free[1..];
    forall i | 0 <= i < |free'|
      ensures FreeAt(s', free', i)
    {
      assert FreeAt(s, free, i + 1);
      assert Link(free, i + 2) == Link(free', i + 1);
    }
  }

  // ----- one address space -----

  predicate TableOf(u: Use, d: nat) {
    u.Table? && u.d == d
  }

  predicate UserOf(u: Use, d: nat) {
    u.User? && u.d == d
  }

  /** All pages in use but the directory and the tables of d keep their words. */
  ghost predicate Untouched(s: Phys, s': Phys, d: nat) {
    && |s'.mem| == |s.mem| == |s.use| == |s'.use|
    && forall f {:trigger s'.mem[f]} | 0 <= f < |s.use| && s.use[f] != Free && f != d && !TableOf(s.use[f], d) :: s'.mem[f] == s.mem[f]
  }

  /** Page f has its old use, or it was free and is now a page table of d. */
  ghost predicate SameOrTable(s: Phys, s': Phys, d: nat, f: nat)
    requires f < |s.use| && f < |s'.use|
  {
    s'.use[f] == s.use[f] || (s.use[f] == Free && TableOf(s'.use[f], d))
  }

  /** n pages from page number v on are mapped to the frames from frame on; tables may have been added. */
  ghost predicate Mapped(s: Phys, s': Phys, d: nat, v: nat, n: nat, frame: nat, flags: nat) {
    && VmOk(s) && VmOk(s') && Untouched(s, s', d) && d < |s.use| && s.use[d] == Dir && s'.use[d] == Dir && v + n <= SPACE
    && (forall w {:trigger Pte(s'.mem, d, w)} | 0 <= w < SPACE ::
          Pte(s'.mem, d, w) == if v <= w < v + n then Entry(frame + (w - v), flags) else Pte(s.mem, d, w))
    && (forall f {:trigger MappedUse(s, s', d, v, n, frame, f)} | 0 <= f < |s.use| :: MappedUse(s, s', d, v, n, frame, f))
  }

  ghost predicate MappedUse(s: Phys, s': Phys, d: nat, v: nat, n: nat, frame: nat, f: nat)
    requires f < |s.use| && f < |s'.use|
  {
    if frame <= f < frame + n && v + (f - frame) < USER then s'.use[f] == User(d, v + (f - frame)) else SameOrTable(s, s', d, f)
  }

  lemma MappedNone(s: Phys, d: nat, v: nat, frame: nat, flags: nat)
    requires VmOk(s) && d < |s.use| && s.use[d] == Dir && v <= SPACE
    ensures Mapped(s, s, d, v, 0, frame, flags)
  {
  }

  /** A table more: nothing is mapped. */
  lemma MappedTable(s: Phys, s': Phys, d: nat, v: nat, n: nat, frame: nat, flags: nat, t: nat, s'': Phys)
    requires Mapped(s, s', d, v, n, frame, flags) && 0 < t < |s.use| && s'.use[t] == Free && v + n < SPACE
    requires !Present(s'.mem[d][(v + n) / 1024])
    requires s'' == WithTable(Phys(s'.mem[t := ZeroPage()], s'.use[t := Kernel]), d, (v + n) / 1024, t)
    ensures Mapped(s, s'', d, v, n, frame, flags) && Present(s''.mem[d][(v + n) / 1024]) && Frame(s''.mem[d][(v + n) / 1024]) == t
  {
    var zeroed := Phys(s'.mem[t := ZeroPage()], s'.use[t := Kernel]);
    LooseChange(s', zeroed, t);
    TableAdded(zeroed, d, (v + n) / 1024, t);
    assert MappedUse(s, s', d, v, n, frame, t);
    forall f | 0 <= f < |s.use|
      ensures MappedUse(s, s'', d, v, n, frame, f)
    {
      assert MappedUse(s, s', d, v, n, frame, f);
    }
  }

  /** One page more. */
  lemma MappedOne(s: Phys, s': Phys, d: nat, v: nat, n: nat, frame: nat, flags: nat, use'': seq<Use>)
    requires Mapped(s, s', d, v, n, frame, flags) && v + n < SPACE && Present(flags) && flags < 4096
    requires Present(s'.mem[d][(v + n) / 1024]) && Frame(s'.mem[d][(v + n) / 1024]) < |s'.mem| && !Present(Pte(s'.mem, d, v + n))
    requires v + n < USER ==> 0 < frame + n < |s.use| && s.use[frame + n] == Kernel
    requires use'' == if v + n < USER then s'.use[frame + n := User(d, v + n)] else s'.use
    ensures Mapped(s, Phys(WithPte(s'.mem, d, v + n, Entry(frame + n, flags)), use''), d, v, n + 1, frame, flags)
  {
    var e := Entry(frame + n, flags);
    var s'' := Phys(WithPte(s'.mem, d, v + n, e), use'');
    EntryParts(frame + n, flags);
    assert v + n < USER ==> MappedUse(s, s', d, v, n, frame, frame + n);
    PteChangeOk(s', d, v + n, e, use'');
    assert PdeOk(s', d, (v + n) / 1024);
    forall w | 0 <= w < SPACE
      ensures Pte(s''.mem, d, w) == if w == v + n then e else Pte(s'.mem, d, w)
    {
      PteWritten(s', d, v + n, e, d, w);
    }
    var m := n + 1;
    forall f | 0 <= f < |s.use|
      ensures MappedUse(s, s'', d, v, m, frame, f)
    {
      assert MappedUse(s, s', d, v, n, frame, f);
    }
    var t := Frame(s'.mem[d][(v + n) / 1024]);
    assert MappedUse(s, s', d, v, n, frame, t);
  }

  /** The user pages from page number lo to hi are unmapped and free; nothing else has changed. */
  ghost predicate Unmapped(s: Phys, s': Phys, d: nat, lo: nat, hi: nat) {
    && VmOk(s) && VmOk(s') && |s'.mem| == |s.mem| && |s'.use| == |s.use| && d < |s.use| && s.use[d] == Dir && s'.use[d] == Dir
    && s'.mem[d] == s.mem[d]
    && (forall w {:trigger Pte(s'.mem, d, w)} | 0 <= w < SPACE ::
          Pte(s'.mem, d, w) == if lo <= w < hi && Present(Pte(s.mem, d, w)) then 0 else Pte(s.mem, d, w))
    && (forall f {:trigger s'.use[f]} | 0 <= f < |s.use| ::
          s'.use[f] == if UserOf(s.use[f], d) && lo <= s.use[f].v < hi then Free else s.use[f])
    && (forall f {:trigger s'.mem[f]} | 0 <= f < |s.use| && !Loose(s'.use[f]) && !TableOf(s.use[f], d) :: s'.mem[f] == s.mem[f])
    && (forall f {:trigger s'.mem[f]} | 0 <= f < |s.use| && s.use[f] == Kernel :: s'.mem[f] == s.mem[f])
  }

  lemma UnmappedNone(s: Phys, d: nat, lo: nat)
    requires VmOk(s) && d < |s.use| && s.use[d] == Dir
    ensures Unmapped(s, s, d, lo, lo)
  {
  }

  /** A page number without a present entry needs nothing. */
  lemma UnmappedSkip(s: Phys, s': Phys, d: nat, lo: nat, hi: nat, hi': nat)
    requires Unmapped(s, s', d, lo, hi) && hi <= hi' <= USER && forall w | hi <= w < hi' :: !Present(Pte(s'.mem, d, w))
    ensures Unmapped(s, s', d, lo, hi')
  {
    forall f | 0 <= f < |s.use|
      ensures UserOf(s.use[f], d) ==> !(hi <= s.use[f].v < hi')
    {
      assert FrameOk(s, f);
      assert UserOf(s.use[f], d) ==> Present(Pte(s'.mem, d, s.use[f].v)) || s.use[f].v < hi;
    }
  }

  /** The page at page number v is freed and its entry cleared. */
  lemma UnmappedOne(s: Phys, s': Phys, d: nat, lo: nat, v: nat, junk: Page)
    requires Unmapped(s, s', d, lo, v) && lo <= v < USER && Present(Pte(s'.mem, d, v))
    requires d != Frame(Pte(s'.mem, d, v)) < |s.mem| && Frame(s'.mem[d][v / 1024]) < |s.mem|
    ensures var p := Frame(Pte(s'.mem, d, v));
            Unmapped(s, Phys(WithPte(s'.mem[p := junk], d, v, 0), s'.use[p := Free]), d, lo, v + 1)
  {
    var p := Frame(Pte(s'.mem, d, v));
    assert PteOk(s', d, v) && PdeOk(s', d, v / 1024);
    var t := Frame(s'.mem[d][v / 1024]);
    var cleared := Phys(WithPte(s'.mem, d, v, 0), s'.use[p := Kernel]);
    PteChangeOk(s', d, v, 0, cleared.use);
    forall c, w | 0 <= c < |s.use| && s'.use[c] == Dir && 0 <= w < SPACE
      ensures cleared.mem[c] == s'.mem[c] && Pte(cleared.mem, c, w) == if c == d && w == v then 0 else Pte(s'.mem, c, w)
    {
      PteWritten(s', d, v, 0, c, w);
    }
    var s'' := Phys(WithPte(s'.mem[p := junk], d, v, 0), s'.use[p := Free]);
    assert s''.mem == cleared.mem[p := junk];
    LooseChange(cleared, s'', p);
    forall f | 0 <= f < |s.use|
      ensures s''.use[f] == if UserOf(s.use[f], d) && lo <= s.use[f].v < v + 1 then Free else s.use[f]
    {
      UnmappedUse(s, s', d, lo, v, f);
    }
  }

  lemma UnmappedUse(s: Phys, s': Phys, d: nat, lo: nat, v: nat, f: nat)
    requires Unmapped(s, s', d, lo, v) && lo <= v < USER && f < |s.use| && Present(Pte(s'.mem, d, v))
    ensures UserOf(s.use[f], d) && s.use[f].v == v <==> f == Frame(Pte(s'.mem, d, v))
  {
    assert FrameOk(s, f) && FrameOk(s', f) && PteOk(s', d, v);
    assert s'.use[f] == if UserOf(s.use[f], d) && lo <= s.use[f].v < v then Free else s.use[f];
  }

  // ----- the end of an address space -----

  /** Page f is the directory, a table or a user page of d. */
  predicate PartOf(u: Use, f: nat, d: nat) {
    f == d || TableOf(u, d) || UserOf(u, d)
  }

  /** Everything that belonged to d is free; nothing else has changed. */
  ghost predicate Gone(s: Phys, s': Phys, d: nat) {
    && |s'.mem| == |s.mem| == |s.use| == |s'.use|
    && (forall f {:trigger s'.use[f]} | 0 <= f < |s.use| :: s'.use[f] == if PartOf(s.use[f], f, d) then Free else s.use[f])
    && (forall f {:trigger s'.mem[f]} | 0 <= f < |s.use| && s'.use[f] != Free :: s'.mem[f] == s.mem[f])
  }

  /** The uses when d and its tables have become plain kernel pages. */
  function Dismantled(use: seq<Use>, d: nat): seq<Use> {
    seq(|use|, f requires 0 <= f < |use| => if f == d || TableOf(use[f], d) then Kernel else use[f])
  }

  lemma DismantledOk(s: Phys, d: nat)
    requires VmOk(s) && d < |s.use| && s.use[d] == Dir && forall f | 0 <= f < |s.use| :: !UserOf(s.use[f], d)
    ensures VmOk(Phys(s.mem, Dismantled(s.use, d)))
  {
    var s' := Phys(s.mem, Dismantled(s.use, d));
    forall f | 0 <= f < |s'.use|
      ensures FrameOk(s', f)
    {
      assert FrameOk(s, f);
    }
    forall c, x | 0 <= c < |s'.use| && s'.use[c] == Dir && 0 <= x < 1024
      ensures PdeOk(s', c, x)
    {
      assert PdeOk(s, c, x);
    }
    forall c, v | 0 <= c < |s'.use| && s'.use[c] == Dir && 0 <= v < USER
      ensures PteOk(s', c, v)
    {
      assert PteOk(s, c, v);
    }
  }

  /** freevm's loop, after the first i entries: s is the state before it. */
  ghost predicate Stripped(s: Phys, s': Phys, d: nat, i: nat) {
    && |s'.mem| == |s.mem| == |s.use| == |s'.use| && d < |s.use| && s'.mem[d] == s.mem[d]
    && (forall f {:trigger s'.use[f]} | 0 <= f < |s.use| ::
          s'.use[f] == if f == d then Kernel else if TableOf(s.use[f], d) then (if s.use[f].x < i then Free else Kernel) else s.use[f])
    && (forall f {:trigger s'.mem[f]} | 0 <= f < |s.use| && s'.use[f] != Free :: s'.mem[f] == s.mem[f])
  }

  /** The table of entry i is the only page of that use. */
  lemma StripNext(s: Phys, s': Phys, d: nat, i: nat)
    requires VmOk(s) && d < |s.use| && s.use[d] == Dir && Stripped(s, s', d, i) && i < 1024
    ensures forall f | 0 <= f < |s.use| :: s.use[f] == Table(d, i) <==> Present(s.mem[d][i]) && f == Frame(s.mem[d][i])
    ensures Present(s.mem[d][i]) ==> 0 < Frame(s.mem[d][i]) < |s.use| && s'.use[Frame(s.mem[d][i])] == Kernel && Frame(s.mem[d][i]) != d
  {
    assert PdeOk(s, d, i);
    forall f | 0 <= f < |s.use|
      ensures s.use[f] == Table(d, i) <==> Present(s.mem[d][i]) && f == Frame(s.mem[d][i])
    {
      assert FrameOk(s, f);
    }
  }

  /** deallocuvm of all user pages, the loop over the tables, and the directory itself. */
  lemma GoneIs(s: Phys, s1: Phys, s2: Phys, s3: Phys, d: nat)
    requires Unmapped(s, s1, d, 0, USER) && Stripped(s1, s2, d, 1024)
    requires |s3.use| == |s3.mem| == |s.use| && s3.use == s2.use[d := Free] && forall f | 0 <= f < |s.use| && f != d :: s3.mem[f] == s2.mem[f]
    ensures Gone(s, s3, d)
  {
    forall f | 0 <= f < |s.use|
      ensures s3.use[f] == if PartOf(s.use[f], f, d) then Free else s.use[f]
      ensures s3.use[f] != Free ==> s3.mem[f] == s.mem[f]
    {
      assert FrameOk(s, f);
      assert s1.use[f] == if UserOf(s.use[f], d) && s.use[f].v < USER then Free else s.use[f];
    }
  }
}
