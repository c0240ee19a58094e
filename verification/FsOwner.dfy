/** Who owns each disk block, and what allocating, writing and freeing a block does to that. */
module FsOwner {
  import opened FsDisk

  datatype Inode = Inode(size: nat, addrs: seq<nat>)

  /** The owner of a block: metadata, nobody, or slot k of inode i.  Slots 0 .. MAXFILE-1 are the
      data blocks in file order and slot MAXFILE is the indirect block. */
  datatype Owner = Reserved | Free | Owned(i: nat, k: nat)

  datatype Fs = Fs(sb: Superblock, d: Disk, inodes: seq<Inode>, owner: seq<Owner>)

  /** The block in slot k, 0 for none. */
  function Slot(d: Disk, ino: Inode, k: nat): nat
    requires |ino.addrs| == NDIRECT + 1 && k <= MAXFILE
  {
    if k < NDIRECT then ino.addrs[k]
    else if k == MAXFILE then ino.addrs[NDIRECT]
    else if ino.addrs[NDIRECT] == 0 || ino.addrs[NDIRECT] >= |d| then 0
    else Word(d[ino.addrs[NDIRECT]], k - NDIRECT)
  }

  ghost predicate SlotOk(f: Fs, i: nat, k: nat)
    requires i < |f.inodes| && |f.inodes[i].addrs| == NDIRECT + 1 && k <= MAXFILE
  {
    var b := Slot(f.d, f.inodes[i], k);
    b == 0 || (f.sb.dataStart <= b < |f.owner| && f.owner[b] == Owned(i, k))
  }

  ghost predicate BlockOk(f: Fs, b: nat)
    requires b < |f.owner| == f.sb.size == |f.d| && LayoutOk(f.sb)
    requires forall i | 0 <= i < |f.inodes| :: |f.inodes[i].addrs| == NDIRECT + 1
  {
    && (f.owner[b] == Reserved <==> b < f.sb.dataStart)
    && (Used(f.sb, f.d, b) <==> f.owner[b] != Free)
    && (f.owner[b].Owned? ==>
          var (i, k) := (f.owner[b].i, f.owner[b].k);
          i < |f.inodes| && k <= MAXFILE && Slot(f.d, f.inodes[i], k) == b)
  }

  /** The words of the indirect block of inode t below slot lo, which itrunc has freed and not cleared. */
  ghost predicate Exempt(t: nat, lo: nat, i: nat, k: nat) {
    i == t && NDIRECT <= k < lo
  }

  /** The block-ownership invariant, apart from the exempt slots. */
  ghost predicate OwnsBut(f: Fs, t: nat, lo: nat) {
    && LayoutOk(f.sb) && |f.owner| == f.sb.size == |f.d|
    && (forall i | 0 <= i < |f.inodes| :: |f.inodes[i].addrs| == NDIRECT + 1)
    && (forall b {:trigger BlockOk(f, b)} | 0 <= b < |f.owner| :: BlockOk(f, b))
    && (forall b | 0 <= b < |f.owner| && f.owner[b].Owned? :: !Exempt(t, lo, f.owner[b].i, f.owner[b].k))
    && (forall i, k {:trigger SlotOk(f, i, k)} | 0 <= i < |f.inodes| && 0 <= k <= MAXFILE && !Exempt(t, lo, i, k) :: SlotOk(f, i, k))
  }

  /** The bits of the free map are set for the metadata and for the blocks in the slots of the
      inodes, and no block is in two slots. */
  ghost predicate Owns(f: Fs) {
    OwnsBut(f, 0, 0)
  }

  /** The invariant without the owner map: which bits are set, and that no block is in two slots. */
  lemma OwnsMeans(f: Fs)
    requires Owns(f)
    ensures forall b | 0 <= b < f.sb.size ::
              Used(f.sb, f.d, b) <==>
                b < f.sb.dataStart || exists i, k | 0 <= i < |f.inodes| && 0 <= k <= MAXFILE :: Slot(f.d, f.inodes[i], k) == b
    ensures forall i, k, i', k' | 0 <= i < |f.inodes| && 0 <= i' < |f.inodes| && 0 <= k <= MAXFILE && 0 <= k' <= MAXFILE ::
              Slot(f.d, f.inodes[i], k) == Slot(f.d, f.inodes[i'], k') != 0 ==> i == i' && k == k'
  {
    forall b | 0 <= b < f.sb.size
      ensures Used(f.sb, f.d, b) <==>
                b < f.sb.dataStart || exists i, k | 0 <= i < |f.inodes| && 0 <= k <= MAXFILE :: Slot(f.d, f.inodes[i], k) == b
    {
      assert BlockOk(f, b);
      if b >= f.sb.dataStart && Used(f.sb, f.d, b) {
        assert Slot(f.d, f.inodes[f.owner[b].i], f.owner[b].k) == b;
      }
      if i, k :| 0 <= i < |f.inodes| && 0 <= k <= MAXFILE && Slot(f.d, f.inodes[i], k) == b {
        assert SlotOk(f, i, k);
      }
    }
    forall i, k, i', k' | 0 <= i < |f.inodes| && 0 <= i' < |f.inodes| && 0 <= k <= MAXFILE && 0 <= k' <= MAXFILE
                          && Slot(f.d, f.inodes[i], k) == Slot(f.d, f.inodes[i'], k') != 0
      ensures i == i' && k == k'
    {
      assert SlotOk(f, i, k) && SlotOk(f, i', k');
    }
  }

  // ----- counting free blocks -----

  ghost function FreeCount(owner: seq<Owner>): nat {
    if owner == [] then 0 else FreeCount(owner[..|owner| - 1]) + if owner[|owner| - 1] == Free then 1 else 0
  }

  lemma {:induction false} FreeCountUpdate(owner: seq<Owner>, b: nat, o: Owner)
    requires b < |owner|
    ensures FreeCount(owner[b := o]) ==
              FreeCount(owner) - (if owner[b] == Free then 1 else 0) + (if o == Free then 1 else 0)
  {
    var n := |owner| - 1;
    if b < n {
      FreeCountUpdate(owner[..n], b, o);
      assert owner[b := o][..n] == owner[..n][b := o];
    } else {
      assert owner[b := o][..n] == owner[..n];
    }
  }

  lemma {:induction false} NoneFree(owner: seq<Owner>)
    requires forall b | 0 <= b < |owner| :: owner[b] != Free
    ensures FreeCount(owner) == 0
  {
    if owner != [] {
      NoneFree(owner[..|owner| - 1]);
    }
  }

  // ----- a block is allocated -----

  /** What balloc does to the disk: the bit of block b is set and the block zeroed, and nothing else changes. */
  ghost predicate Allocated(sb: Superblock, d: Disk, d': Disk, b: nat) {
    && LayoutOk(sb) && |d'| == |d| == sb.size && sb.dataStart <= b < sb.size && d'[b] == ZeroBlock()
    && (forall x {:trigger Used(sb, d', x)} | 0 <= x < sb.size :: Used(sb, d', x) <==> x == b || Used(sb, d, x))
    && (forall x {:trigger d'[x]} | 0 <= x < sb.size && x != b && x != sb.bmapstart + b / BPB :: d'[x] == d[x])
    && OneBit(d[sb.bmapstart + b / BPB], d'[sb.bmapstart + b / BPB], b % BPB, true)
  }

  lemma SlotFrame(d: Disk, d': Disk, ino: Inode, k: nat)
    requires |ino.addrs| == NDIRECT + 1 && k <= MAXFILE && |d'| == |d|
    requires ino.addrs[NDIRECT] != 0 && ino.addrs[NDIRECT] < |d| ==> d'[ino.addrs[NDIRECT]] == d[ino.addrs[NDIRECT]]
    ensures Slot(d', ino, k) == Slot(d, ino, k)
  {
  }

  /** The address array after slot k, which is not in the indirect block, gets block b. */
  function WithAddr(ino: Inode, k: nat, b: nat): Inode
    requires |ino.addrs| == NDIRECT + 1 && (k < NDIRECT || k == MAXFILE)
  {
    ino.(addrs := ino.addrs[if k == MAXFILE then NDIRECT else k := b])
  }

  /** The state after slot k of inode i in the address array took a new block. */
  function Claimed(f: Fs, i: nat, k: nat, b: nat, d': Disk): Fs
    requires i < |f.inodes| && |f.inodes[i].addrs| == NDIRECT + 1 && (k < NDIRECT || k == MAXFILE) && b < |f.owner|
  {
    Fs(f.sb, d', f.inodes[i := WithAddr(f.inodes[i], k, b)], f.owner[b := Owned(i, k)])
  }

  lemma ClaimedSlot(f: Fs, i: nat, k: nat, b: nat, d': Disk, j: nat, x: nat)
    requires Owns(f) && i < |f.inodes| && (k < NDIRECT || k == MAXFILE)
    requires Slot(f.d, f.inodes[i], k) == 0 && b < |f.owner| && f.owner[b] == Free && Allocated(f.sb, f.d, d', b)
    requires j < |f.inodes| && x <= MAXFILE
    ensures var f' := Claimed(f, i, k, b, d');
            |f'.inodes[j].addrs| == NDIRECT + 1 && Slot(f'.d, f'.inodes[j], x) == if j == i && x == k then b else Slot(f.d, f.inodes[j], x)
  {
    var f' := Claimed(f, i, k, b, d');
    assert SlotOk(f, j, MAXFILE);
    if j == i && k == MAXFILE && NDIRECT <= x < MAXFILE {
      ZeroWord(x - NDIRECT);
    } else {
      SlotFrame(f.d, d', f.inodes[j], x);
    }
  }

  /** Taking a free block for an empty slot of the address array keeps the invariant. */
  lemma ClaimedOwns(f: Fs, i: nat, k: nat, b: nat, d': Disk)
    requires Owns(f) && i < |f.inodes| && (k < NDIRECT || k == MAXFILE)
    requires Slot(f.d, f.inodes[i], k) == 0 && b < |f.owner| && f.owner[b] == Free && Allocated(f.sb, f.d, d', b)
    ensures Owns(Claimed(f, i, k, b, d'))
  {
    var f' := Claimed(f, i, k, b, d');
    forall x | 0 <= x < |f'.owner|
      ensures BlockOk(f', x)
    {
      assert BlockOk(f, x);
      if x == b {
        ClaimedSlot(f, i, k, b, d', i, k);
      } else if f.owner[x].Owned? {
        ClaimedSlot(f, i, k, b, d', f.owner[x].i, f.owner[x].k);
      }
    }
    forall j, x | 0 <= j < |f'.inodes| && 0 <= x <= MAXFILE
      ensures SlotOk(f', j, x)
    {
      assert SlotOk(f, j, x);
      ClaimedSlot(f, i, k, b, d', j, x);
    }
  }

  /** The disk after word k of the indirect block of the inode took block b. */
  function WithWord(d: Disk, ino: Inode, k: nat, b: nat): Disk
    requires |ino.addrs| == NDIRECT + 1 && NDIRECT <= k < MAXFILE && ino.addrs[NDIRECT] < |d|
  {
    d[ino.addrs[NDIRECT] := SetWord(d[ino.addrs[NDIRECT]], k - NDIRECT, b)]
  }

  function Entered(f: Fs, i: nat, k: nat, b: nat, d': Disk): Fs
    requires i < |f.inodes| && |f.inodes[i].addrs| == NDIRECT + 1 && NDIRECT <= k < MAXFILE && f.inodes[i].addrs[NDIRECT] < |d'|
    requires b < |f.owner|
  {
    Fs(f.sb, WithWord(d', f.inodes[i], k, b), f.inodes, f.owner[b := Owned(i, k)])
  }

  lemma EnteredSlot(f: Fs, i: nat, k: nat, b: nat, d': Disk, j: nat, x: nat)
    requires Owns(f) && i < |f.inodes| && NDIRECT <= k < MAXFILE && 0 < f.inodes[i].addrs[NDIRECT] < |d'|
    requires Slot(f.d, f.inodes[i], k) == 0 && b < |f.owner| && f.owner[b] == Free && Allocated(f.sb, f.d, d', b)
    requires j < |f.inodes| && x <= MAXFILE
    ensures Slot(Entered(f, i, k, b, d').d, f.inodes[j], x) == if j == i && x == k then b else Slot(f.d, f.inodes[j], x)
  {
    assert SlotOk(f, j, MAXFILE) && SlotOk(f, i, MAXFILE);
    if j == i {
      if NDIRECT <= x < MAXFILE {
        WordAfterSet(d'[f.inodes[i].addrs[NDIRECT]], k - NDIRECT, b, x - NDIRECT);
      }
    } else {
      SlotFrame(f.d, Entered(f, i, k, b, d').d, f.inodes[j], x);
    }
  }

  /** Taking a free block for an empty word of the indirect block keeps the invariant. */
  lemma EnteredOwns(f: Fs, i: nat, k: nat, b: nat, d': Disk)
    requires Owns(f) && i < |f.inodes| && NDIRECT <= k < MAXFILE && 0 < f.inodes[i].addrs[NDIRECT] < |d'|
    requires Slot(f.d, f.inodes[i], k) == 0 && b < |f.owner| && f.owner[b] == Free && Allocated(f.sb, f.d, d', b)
    ensures Owns(Entered(f, i, k, b, d'))
  {
    var f' := Entered(f, i, k, b, d');
    assert SlotOk(f, i, MAXFILE);
    forall x | 0 <= x < |f'.owner|
      ensures BlockOk(f', x)
    {
      assert BlockOk(f, x);
      assert Used(f'.sb, f'.d, x) == Used(f.sb, d', x);
      if x == b {
        EnteredSlot(f, i, k, b, d', i, k);
      } else if f.owner[x].Owned? {
        EnteredSlot(f, i, k, b, d', f.owner[x].i, f.owner[x].k);
      }
    }
    forall j, x | 0 <= j < |f'.inodes| && 0 <= x <= MAXFILE
      ensures SlotOk(f', j, x)
    {
      assert SlotOk(f, j, x);
      EnteredSlot(f, i, k, b, d', j, x);
    }
  }

  // ----- a data block is written -----

  /** Writing the data block in slot k of inode i changes no slot and keeps the invariant. */
  lemma WrittenOwns(f: Fs, i: nat, k: nat, data: Block)
    requires Owns(f) && i < |f.inodes| && k < MAXFILE && Slot(f.d, f.inodes[i], k) != 0
    ensures Slot(f.d, f.inodes[i], k) < |f.d|
    ensures var f' := f.(d := f.d[Slot(f.d, f.inodes[i], k) := data]);
            && Owns(f')
            && forall j, x | 0 <= j < |f.inodes| && 0 <= x <= MAXFILE :: Slot(f'.d, f.inodes[j], x) == Slot(f.d, f.inodes[j], x)
  {
    assert SlotOk(f, i, k);
    var f' := f.(d := f.d[Slot(f.d, f.inodes[i], k) := data]);
    forall j, x | 0 <= j < |f.inodes| && 0 <= x <= MAXFILE
      ensures Slot(f'.d, f.inodes[j], x) == Slot(f.d, f.inodes[j], x) && SlotOk(f', j, x)
    {
      assert SlotOk(f, j, MAXFILE) && SlotOk(f, j, x);
      SlotFrame(f.d, f'.d, f.inodes[j], x);
    }
    forall x | 0 <= x < |f'.owner|
      ensures BlockOk(f', x)
    {
      assert BlockOk(f, x);
      assert Used(f'.sb, f'.d, x) == Used(f.sb, f.d, x);
    }
  }

  // ----- a block is freed -----

  /** What bfree does to the disk: the bit of block b is cleared, and nothing else changes. */
  ghost predicate Freed(sb: Superblock, d: Disk, d': Disk, b: nat) {
    && LayoutOk(sb) && |d'| == |d| == sb.size && b < sb.size
    && (forall x {:trigger Used(sb, d', x)} | 0 <= x < sb.size :: Used(sb, d', x) <==> x != b && Used(sb, d, x))
    && (forall x {:trigger d'[x]} | 0 <= x < sb.size && x != sb.bmapstart + b / BPB :: d'[x] == d[x])
    && OneBit(d[sb.bmapstart + b / BPB], d'[sb.bmapstart + b / BPB], b % BPB, false)
  }

  /** The state after slot k of the address array gave up its block. */
  function Released(f: Fs, i: nat, k: nat, d': Disk): Fs
    requires i < |f.inodes| && |f.inodes[i].addrs| == NDIRECT + 1 && (k < NDIRECT || k == MAXFILE)
    requires Slot(f.d, f.inodes[i], k) < |f.owner|
  {
    Fs(f.sb, d', f.inodes[i := WithAddr(f.inodes[i], k, 0)], f.owner[Slot(f.d, f.inodes[i], k) := Free])
  }

  lemma FreedSlot(f: Fs, t: nat, lo: nat, d': Disk, b: nat, j: nat, x: nat)
    requires OwnsBut(f, t, lo) && lo <= MAXFILE && Freed(f.sb, f.d, d', b) && j < |f.inodes| && x <= MAXFILE
    ensures Slot(d', f.inodes[j], x) == Slot(f.d, f.inodes[j], x)
  {
    assert SlotOk(f, j, MAXFILE);
    SlotFrame(f.d, d', f.inodes[j], x);
  }

  lemma ReleasedSlot(f: Fs, t: nat, lo: nat, k: nat, d': Disk, j: nat, x: nat)
    requires OwnsBut(f, t, lo) && t < |f.inodes| && (if k == MAXFILE then lo == MAXFILE else k < NDIRECT && lo == 0)
    requires 0 < Slot(f.d, f.inodes[t], k) < |f.owner| && Freed(f.sb, f.d, d', Slot(f.d, f.inodes[t], k))
    requires j < |f.inodes| && x <= MAXFILE
    ensures var f' := Released(f, t, k, d');
            && |f'.inodes[j].addrs| == NDIRECT + 1
            && Slot(f'.d, f'.inodes[j], x) == if j == t && (x == k || (k == MAXFILE && NDIRECT <= x)) then 0 else Slot(f.d, f.inodes[j], x)
  {
    FreedSlot(f, t, lo, d', Slot(f.d, f.inodes[t], k), j, x);
    assert SlotOk(f, j, MAXFILE);
  }

  /** Giving up a direct block, or the indirect block once its words are exempt, keeps the invariant. */
  lemma ReleasedOwns(f: Fs, t: nat, lo: nat, k: nat, d': Disk)
    requires OwnsBut(f, t, lo) && t < |f.inodes| && (if k == MAXFILE then lo == MAXFILE else k < NDIRECT && lo == 0)
    requires 0 < Slot(f.d, f.inodes[t], k) < |f.owner| && Freed(f.sb, f.d, d', Slot(f.d, f.inodes[t], k))
    ensures Owns(Released(f, t, k, d'))
  {
    var b := Slot(f.d, f.inodes[t], k);
    var f' := Released(f, t, k, d');
    assert SlotOk(f, t, k);
    forall x | 0 <= x < |f'.owner|
      ensures BlockOk(f', x)
    {
      assert BlockOk(f, x);
      if x != b && f.owner[x].Owned? {
        ReleasedSlot(f, t, lo, k, d', f.owner[x].i, f.owner[x].k);
      }
    }
    forall j, x | 0 <= j < |f'.inodes| && 0 <= x <= MAXFILE
      ensures SlotOk(f', j, x)
    {
      ReleasedSlot(f, t, lo, k, d', j, x);
      if !Exempt(t, lo, j, x) {
        assert SlotOk(f, j, x);
      }
    }
  }

  /** The state after the block in word k of the indirect block is freed; the word stays. */
  function Dropped(f: Fs, t: nat, k: nat, d': Disk): Fs
    requires t < |f.inodes| && |f.inodes[t].addrs| == NDIRECT + 1 && k <= MAXFILE && Slot(f.d, f.inodes[t], k) < |f.owner|
  {
    Fs(f.sb, d', f.inodes, f.owner[Slot(f.d, f.inodes[t], k) := Free])
  }

  lemma DroppedOwns(f: Fs, t: nat, k: nat, d': Disk)
    requires OwnsBut(f, t, k) && t < |f.inodes| && NDIRECT <= k < MAXFILE
    requires 0 < Slot(f.d, f.inodes[t], k) < |f.owner| && Freed(f.sb, f.d, d', Slot(f.d, f.inodes[t], k))
    ensures OwnsBut(Dropped(f, t, k, d'), t, k + 1)
  {
    var b := Slot(f.d, f.inodes[t], k);
    var f' := Dropped(f, t, k, d');
    assert SlotOk(f, t, k);
    forall x | 0 <= x < |f'.owner|
      ensures BlockOk(f', x) && (f'.owner[x].Owned? ==> !Exempt(t, k + 1, f'.owner[x].i, f'.owner[x].k))
    {
      assert BlockOk(f, x);
      if x != b && f.owner[x].Owned? {
        FreedSlot(f, t, k, d', b, f.owner[x].i, f.owner[x].k);
      }
    }
    forall j, x | 0 <= j < |f'.inodes| && 0 <= x <= MAXFILE && !Exempt(t, k + 1, j, x)
      ensures SlotOk(f', j, x)
    {
      FreedSlot(f, t, k, d', b, j, x);
      assert SlotOk(f, j, x);
    }
  }

  /** An empty word needs no freeing. */
  lemma SkippedOwns(f: Fs, t: nat, k: nat)
    requires OwnsBut(f, t, k) && t < |f.inodes| && k < MAXFILE && (k < NDIRECT || Slot(f.d, f.inodes[t], k) == 0)
    ensures OwnsBut(f, t, k + 1)
  {
    forall x | 0 <= x < |f.owner| && f.owner[x].Owned?
      ensures !Exempt(t, k + 1, f.owner[x].i, f.owner[x].k)
    {
      assert BlockOk(f, x);
    }
    forall j, x | 0 <= j < |f.inodes| && 0 <= x <= MAXFILE && !Exempt(t, k + 1, j, x)
      ensures SlotOk(f, j, x)
    {
      assert !Exempt(t, k, j, x);
    }
  }

  lemma OwnsAny(f: Fs, t: nat)
    requires Owns(f)
    ensures OwnsBut(f, t, 0) && OwnsBut(f, t, NDIRECT)
  {
  }

  /** The blocks that slots below lo of inode t owned are free now, all others have the same owner. */
  ghost predicate FreedBelow(owner: seq<Owner>, owner': seq<Owner>, t: nat, lo: nat) {
    && |owner'| == |owner|
    && forall b {:trigger owner'[b]} | 0 <= b < |owner| ::
         owner'[b] == if owner[b].Owned? && owner[b].i == t && owner[b].k < lo then Free else owner[b]
  }

  /** One more slot is empty, or its block is freed. */
  lemma FreedOneMore(owner: seq<Owner>, f: Fs, t: nat, lo: nat, k: nat)
    requires FreedBelow(owner, f.owner, t, k) && OwnsBut(f, t, lo) && t < |f.inodes| && k <= MAXFILE && !Exempt(t, lo, t, k)
    ensures var b := Slot(f.d, f.inodes[t], k);
            if b == 0 then FreedBelow(owner, f.owner, t, k + 1)
            else b < |f.owner| && FreedBelow(owner, f.owner[b := Free], t, k + 1)
  {
    assert SlotOk(f, t, k);
    forall x | 0 <= x < |f.owner|
      ensures f.owner[x] == Owned(t, k) ==> x == Slot(f.d, f.inodes[t], k) != 0
    {
      assert BlockOk(f, x);
    }
  }
}
