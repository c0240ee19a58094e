/** Files as flat byte sequences. */
module FsFiles {
  import opened FsDisk
  import opened FsOwner

  /** Byte p of the file, whatever its size says. */
  function ByteAt(d: Disk, ino: Inode, p: nat): Byte
    requires |ino.addrs| == NDIRECT + 1
  {
    if p / BSIZE < MAXFILE && 0 != Slot(d, ino, p / BSIZE) < |d| then d[Slot(d, ino, p / BSIZE)][p % BSIZE] else Zero()
  }

  /** The file as its readers see it. */
  function Content(d: Disk, ino: Inode): (s: seq<Byte>)
    requires |ino.addrs| == NDIRECT + 1
    ensures |s| == ino.size
  {
    seq(ino.size, p requires p >= 0 => ByteAt(d, ino, p))
  }

  /** The inode has exactly the blocks that its first size bytes need. */
  ghost predicate Dense(d: Disk, ino: Inode, size: nat) {
    && |ino.addrs| == NDIRECT + 1 && size <= MAXFILE * BSIZE
    && (forall k {:trigger Slot(d, ino, k)} | 0 <= k < MAXFILE :: Slot(d, ino, k) != 0 <==> k * BSIZE < size)
    && (Slot(d, ino, MAXFILE) != 0 <==> NDIRECT * BSIZE < size)
  }

  ghost predicate AllDense(f: Fs) {
    forall i | 0 <= i < |f.inodes| :: Dense(f.d, f.inodes[i], f.inodes[i].size)
  }

  /** The number of blocks, with the indirect block, of a file of this size. */
  function Blocks(size: nat): nat {
    (size + BSIZE - 1) / BSIZE + if size > NDIRECT * BSIZE then 1 else 0
  }

  /** s with the bytes of src from offset off on. */
  function Splice(s: seq<Byte>, off: nat, src: seq<Byte>): (r: seq<Byte>)
    requires off <= |s|
  {
    s[..off] + src + if off + |src| <= |s| then s[off + |src|..] else []
  }

  /** Inode j has the same slots with the same data in f and f'. */
  ghost predicate SameFile(f: Fs, f': Fs, j: nat)
    requires j < |f.inodes| && j < |f'.inodes|
  {
    && f'.inodes[j] == f.inodes[j] && |f.inodes[j].addrs| == NDIRECT + 1
    && (forall k {:trigger Slot(f'.d, f.inodes[j], k)} | 0 <= k <= MAXFILE :: Slot(f'.d, f.inodes[j], k) == Slot(f.d, f.inodes[j], k))
    && (forall p {:trigger ByteAt(f'.d, f.inodes[j], p)} | 0 <= p :: ByteAt(f'.d, f.inodes[j], p) == ByteAt(f.d, f.inodes[j], p))
  }

  ghost predicate OthersSame(f: Fs, f': Fs, i: nat) {
    && |f'.inodes| == |f.inodes|
    && forall j {:trigger f'.inodes[j]} | 0 <= j < |f.inodes| && j != i :: SameFile(f, f', j)
  }

  lemma SameContent(f: Fs, f': Fs, j: nat)
    requires j < |f.inodes| && j < |f'.inodes| && SameFile(f, f', j)
    ensures Content(f'.d, f'.inodes[j]) == Content(f.d, f.inodes[j])
    ensures Dense(f.d, f.inodes[j], f.inodes[j].size) ==> Dense(f'.d, f'.inodes[j], f'.inodes[j].size)
  {
  }

  /** A file all of whose blocks keep their data keeps its bytes. */
  lemma SameBytes(f: Fs, f': Fs, j: nat)
    requires j < |f.inodes| && j < |f'.inodes| && f'.inodes[j] == f.inodes[j] && |f.inodes[j].addrs| == NDIRECT + 1 && |f'.d| == |f.d|
    requires forall k | 0 <= k <= MAXFILE :: Slot(f'.d, f.inodes[j], k) == Slot(f.d, f.inodes[j], k)
    requires forall k | 0 <= k < MAXFILE && 0 != Slot(f.d, f.inodes[j], k) < |f.d| :: f'.d[Slot(f.d, f.inodes[j], k)] == f.d[Slot(f.d, f.inodes[j], k)]
    ensures SameFile(f, f', j)
  {
  }

  /** The block belongs to inode i. */
  predicate Mine(o: Owner, i: nat) {
    o.Owned? && o.i == i
  }

  /** The owner is as before, or the block was free and is inode i's now. */
  ghost predicate OwnerKept(f: Fs, f': Fs, i: nat, x: nat)
    requires x < |f.owner| && x < |f'.owner|
  {
    f'.owner[x] == f.owner[x] || (f.owner[x] == Free && Mine(f'.owner[x], i))
  }

  /** Inode i has taken free blocks at most, and blocks that are neither its own nor part of the free map
      are unchanged. */
  ghost predicate Confined(f: Fs, f': Fs, i: nat) {
    && f'.sb == f.sb && |f'.d| == |f.d| == |f.owner| == |f'.owner|
    && (forall x {:trigger OwnerKept(f, f', i, x)} | 0 <= x < |f.owner| :: OwnerKept(f, f', i, x))
    && (forall x {:trigger f'.d[x]} | 0 <= x < |f.d| && !InMap(f.sb, x) && !Mine(f'.owner[x], i) :: f'.d[x] == f.d[x])
  }

  lemma ConfinedChain(f: Fs, g: Fs, h: Fs, i: nat)
    requires Confined(f, g, i) && Confined(g, h, i)
    ensures Confined(f, h, i)
  {
    forall x | 0 <= x < |f.owner|
      ensures OwnerKept(f, h, i, x)
      ensures !InMap(f.sb, x) && !Mine(h.owner[x], i) ==> h.d[x] == f.d[x]
    {
      assert OwnerKept(f, g, i, x) && OwnerKept(g, h, i, x);
    }
  }

  lemma ConfinedInodes(f: Fs, g: Fs, i: nat, inodes: seq<Inode>)
    requires Confined(f, g, i)
    ensures Confined(f, g.(inodes := inodes), i)
  {
    forall x | 0 <= x < |f.owner|
      ensures OwnerKept(f, g.(inodes := inodes), i, x)
    {
      assert OwnerKept(f, g, i, x);
    }
  }

  /** The block that balloc marks is in the free map. */
  lemma MapBlock(sb: Superblock, b: nat)
    requires LayoutOk(sb) && b < sb.size
    ensures InMap(sb, sb.bmapstart + b / BPB)
  {
  }

  // ----- steps of bmap -----

  /** Slot k of inode i got a block, and nothing else that the inodes can see has changed. */
  ghost predicate Gained(f: Fs, f': Fs, i: nat, k: nat) {
    && Owns(f) && Owns(f') && i < |f.inodes| && k <= MAXFILE && f'.sb == f.sb && OthersSame(f, f', i) && f'.inodes[i].size == f.inodes[i].size
    && Slot(f.d, f.inodes[i], k) == 0 && Slot(f'.d, f'.inodes[i], k) != 0
    && (forall x {:trigger Slot(f'.d, f'.inodes[i], x)} | 0 <= x <= MAXFILE && x != k :: Slot(f'.d, f'.inodes[i], x) == Slot(f.d, f.inodes[i], x))
    && (forall p {:trigger ByteAt(f'.d, f'.inodes[i], p)} | 0 <= p && p / BSIZE != k :: ByteAt(f'.d, f'.inodes[i], p) == ByteAt(f.d, f.inodes[i], p))
    && FreeCount(f'.owner) + 1 == FreeCount(f.owner) && Confined(f, f', i)
  }

  lemma ClaimedGained(f: Fs, i: nat, k: nat, b: nat, d': Disk)
    requires Owns(f) && i < |f.inodes| && (k < NDIRECT || k == MAXFILE)
    requires Slot(f.d, f.inodes[i], k) == 0 && b < |f.owner| && f.owner[b] == Free && Allocated(f.sb, f.d, d', b)
    ensures Gained(f, Claimed(f, i, k, b, d'), i, k)
  {
    var f' := Claimed(f, i, k, b, d');
    ClaimedOwns(f, i, k, b, d');
    FreeCountUpdate(f.owner, b, Owned(i, k));
    MapBlock(f.sb, b);
    assert Confined(f, f', i);
    forall j, x | 0 <= j < |f.inodes| && 0 <= x <= MAXFILE
      ensures Slot(f'.d, f'.inodes[j], x) == if j == i && x == k then b else Slot(f.d, f.inodes[j], x)
      ensures 0 != Slot(f.d, f.inodes[j], x) ==> Slot(f.d, f.inodes[j], x) < |f.d| && d'[Slot(f.d, f.inodes[j], x)] == f.d[Slot(f.d, f.inodes[j], x)]
    {
      ClaimedSlot(f, i, k, b, d', j, x);
      assert SlotOk(f, j, x);
    }
    forall j | 0 <= j < |f.inodes| && j != i
      ensures SameFile(f, f', j)
    {
      SameBytes(f, f', j);
    }
  }

  lemma EnteredGained(f: Fs, i: nat, k: nat, b: nat, d': Disk)
    requires Owns(f) && i < |f.inodes| && NDIRECT <= k < MAXFILE && 0 < f.inodes[i].addrs[NDIRECT] < |d'|
    requires Slot(f.d, f.inodes[i], k) == 0 && b < |f.owner| && f.owner[b] == Free && Allocated(f.sb, f.d, d', b)
    ensures Gained(f, Entered(f, i, k, b, d'), i, k)
  {
    var f' := Entered(f, i, k, b, d');
    EnteredOwns(f, i, k, b, d');
    FreeCountUpdate(f.owner, b, Owned(i, k));
    assert SlotOk(f, i, MAXFILE);
    MapBlock(f.sb, b);
    assert Confined(f, f', i);
    forall j, x | 0 <= j < |f.inodes| && 0 <= x <= MAXFILE
      ensures Slot(f'.d, f'.inodes[j], x) == if j == i && x == k then b else Slot(f.d, f.inodes[j], x)
      ensures 0 != Slot(f.d, f.inodes[j], x) && x < MAXFILE ==> Slot(f.d, f.inodes[j], x) < |f.d| && f'.d[Slot(f.d, f.inodes[j], x)] == f.d[Slot(f.d, f.inodes[j], x)]
    {
      EnteredSlot(f, i, k, b, d', j, x);
      assert SlotOk(f, j, x);
    }
    forall j | 0 <= j < |f.inodes| && j != i
      ensures SameFile(f, f', j)
    {
      SameBytes(f, f', j);
    }
  }

  /** The blocks that bmap has to allocate for block bn of inode i. */
  ghost function Needed(f: Fs, i: nat, bn: nat): nat
    requires i < |f.inodes| && |f.inodes[i].addrs| == NDIRECT + 1 && bn < MAXFILE
  {
    if Slot(f.d, f.inodes[i], bn) != 0 then 0
    else if bn >= NDIRECT && Slot(f.d, f.inodes[i], MAXFILE) == 0 then 2 else 1
  }

  /** What bmap does for block bn of inode i. */
  ghost predicate Mapped(f: Fs, f': Fs, i: nat, bn: nat) {
    && Owns(f) && Owns(f') && i < |f.inodes| && bn < MAXFILE && f'.sb == f.sb && OthersSame(f, f', i) && f'.inodes[i].size == f.inodes[i].size
    && Slot(f'.d, f'.inodes[i], bn) != 0
    && (forall x {:trigger Slot(f'.d, f'.inodes[i], x)} | 0 <= x < MAXFILE && x != bn :: Slot(f'.d, f'.inodes[i], x) == Slot(f.d, f.inodes[i], x))
    && (Slot(f'.d, f'.inodes[i], MAXFILE) != 0 <==> bn >= NDIRECT || Slot(f.d, f.inodes[i], MAXFILE) != 0)
    && (forall p {:trigger ByteAt(f'.d, f'.inodes[i], p)} | 0 <= p && p / BSIZE != bn :: ByteAt(f'.d, f'.inodes[i], p) == ByteAt(f.d, f.inodes[i], p))
    && FreeCount(f'.owner) + Needed(f, i, bn) == FreeCount(f.owner)
    && (Slot(f.d, f.inodes[i], bn) != 0 ==> f' == f) && Confined(f, f', i)
  }

  lemma MappedByOne(f: Fs, f': Fs, i: nat, bn: nat)
    requires Gained(f, f', i, bn) && bn < MAXFILE && (bn >= NDIRECT ==> Slot(f.d, f.inodes[i], MAXFILE) != 0)
    ensures Mapped(f, f', i, bn)
  {
  }

  lemma MappedByTwo(f: Fs, g: Fs, f': Fs, i: nat, bn: nat)
    requires Gained(f, g, i, MAXFILE) && Gained(g, f', i, bn) && NDIRECT <= bn < MAXFILE
    ensures Mapped(f, f', i, bn)
  {
    OthersChain(f, g, f', i);
    ConfinedChain(f, g, f', i);
    forall x | 0 <= x < MAXFILE && x != bn
      ensures Slot(f'.d, f'.inodes[i], x) == Slot(f.d, f.inodes[i], x)
    {
      assert Slot(g.d, g.inodes[i], x) == Slot(f.d, f.inodes[i], x);
    }
    forall p: nat | p / BSIZE != bn
      ensures ByteAt(f'.d, f'.inodes[i], p) == ByteAt(f.d, f.inodes[i], p)
    {
      if p / BSIZE < MAXFILE {
        assert ByteAt(g.d, g.inodes[i], p) == ByteAt(f.d, f.inodes[i], p);
      }
    }
    assert Slot(f'.d, f'.inodes[i], MAXFILE) == Slot(g.d, g.inodes[i], MAXFILE);
    assert Slot(g.d, g.inodes[i], bn) == Slot(f.d, f.inodes[i], bn);
  }

  // ----- steps of writei -----

  /** A block with the bytes of chunk from offset o on, as memmove leaves it. */
  function Patched(data: Block, o: nat, chunk: seq<Byte>): Block
    requires o + |chunk| <= BSIZE
  {
    data[..o] + chunk + data[o + |chunk|..]
  }

  lemma DataWritten(f: Fs, i: nat, k: nat, data: Block)
    requires Owns(f) && i < |f.inodes| && k < MAXFILE && Slot(f.d, f.inodes[i], k) != 0
    ensures Slot(f.d, f.inodes[i], k) < |f.d|
    ensures var f' := f.(d := f.d[Slot(f.d, f.inodes[i], k) := data]);
            && Owns(f') && OthersSame(f, f', i) && Confined(f, f', i)
            && (forall x | 0 <= x <= MAXFILE :: Slot(f'.d, f.inodes[i], x) == Slot(f.d, f.inodes[i], x))
            && (forall p {:trigger ByteAt(f'.d, f.inodes[i], p)} | 0 <= p ::
                  ByteAt(f'.d, f.inodes[i], p) == if p / BSIZE == k then data[p % BSIZE] else ByteAt(f.d, f.inodes[i], p))
  {
    WrittenOwns(f, i, k, data);
    var b := Slot(f.d, f.inodes[i], k);
    var f' := f.(d := f.d[b := data]);
    assert SlotOk(f, i, k);
    forall j, x | 0 <= j < |f.inodes| && 0 <= x <= MAXFILE && (j, x) != (i, k)
      ensures Slot(f.d, f.inodes[j], x) != b
    {
      assert SlotOk(f, j, x);
    }
    forall j | 0 <= j < |f.inodes| && j != i
      ensures SameFile(f, f', j)
    {
      SameBytes(f, f', j);
    }
  }

  function Max(a: nat, b: nat): nat {
    if a < b then b else a
  }

  /** Where writei stands after the bytes below offset off. */
  ghost predicate Writing(f0: Fs, f: Fs, i: nat, src: seq<Byte>, start: nat, off: nat) {
    && Owns(f) && f.sb == f0.sb && i < |f0.inodes| && OthersSame(f0, f, i) && |f0.inodes[i].addrs| == NDIRECT + 1
    && start <= off <= start + |src| && start <= f0.inodes[i].size == f.inodes[i].size
    && Dense(f.d, f.inodes[i], Max(f0.inodes[i].size, off))
    && (forall p {:trigger ByteAt(f.d, f.inodes[i], p)} | 0 <= p < Max(f0.inodes[i].size, off) ::
          ByteAt(f.d, f.inodes[i], p) == if start <= p < off then src[p - start] else ByteAt(f0.d, f0.inodes[i], p))
    && FreeCount(f.owner) + Blocks(Max(f0.inodes[i].size, off)) == FreeCount(f0.owner) + Blocks(f0.inodes[i].size)
    && (off <= f0.inodes[i].size ==> f.inodes == f0.inodes) && Confined(f0, f, i)
  }

  lemma WritingStarts(f: Fs, i: nat, src: seq<Byte>, off: nat)
    requires Owns(f) && i < |f.inodes| && AllDense(f) && off <= f.inodes[i].size
    ensures Writing(f, f, i, src, off, off)
  {
    forall j | 0 <= j < |f.inodes|
      ensures SameFile(f, f, j)
    {
    }
  }

  /** The bytes that one turn of the loop copies. */
  function Chunk(left: nat, off: nat): (m: nat)
    ensures left > 0 ==> 0 < m <= left
  {
    if left < BSIZE - off % BSIZE then left else BSIZE - off % BSIZE
  }

  lemma DenseStep(f: Fs, g: Fs, i: nat, off: nat, m: nat, size: nat)
    requires Mapped(f, g, i, off / BSIZE) && 0 < m <= BSIZE - off % BSIZE && off + m <= MAXFILE * BSIZE
    requires Dense(f.d, f.inodes[i], Max(size, off))
    ensures Dense(g.d, g.inodes[i], Max(size, off + m))
    ensures FreeCount(g.owner) + Blocks(Max(size, off + m)) == FreeCount(f.owner) + Blocks(Max(size, off))
  {
  }

  /** The bytes after one turn of the loop, in which g became h. */
  lemma StepBytes(f0: Fs, f: Fs, g: Fs, i: nat, src: seq<Byte>, start: nat, off: nat, m: nat, d': Disk, p: nat)
    requires Writing(f0, f, i, src, start, off) && Mapped(f, g, i, off / BSIZE)
    requires 0 < m <= BSIZE - off % BSIZE && off + m <= start + |src| <= MAXFILE * BSIZE
    requires Slot(g.d, g.inodes[i], off / BSIZE) < |g.d| && p < Max(f0.inodes[i].size, off + m)
    requires var data := Patched(g.d[Slot(g.d, g.inodes[i], off / BSIZE)], off % BSIZE, src[off - start..off - start + m]);
             ByteAt(d', g.inodes[i], p) == if p / BSIZE == off / BSIZE then data[p % BSIZE] else ByteAt(g.d, g.inodes[i], p)
    ensures ByteAt(d', g.inodes[i], p) == if start <= p < off + m then src[p - start] else ByteAt(f0.d, f0.inodes[i], p)
  {
    if p / BSIZE == off / BSIZE {
      WrittenByte(f0, f, g, i, src, start, off, m, p);
    } else {
      assert ByteAt(g.d, g.inodes[i], p) == ByteAt(f.d, f.inodes[i], p);
    }
  }

  /** One turn of the loop: bmap, then memmove into the block. */
  lemma WritingStep(f0: Fs, f: Fs, g: Fs, i: nat, src: seq<Byte>, start: nat, off: nat, m: nat)
    requires Writing(f0, f, i, src, start, off) && Mapped(f, g, i, off / BSIZE)
    requires 0 < m <= BSIZE - off % BSIZE && off + m <= start + |src| <= MAXFILE * BSIZE
    requires Slot(g.d, g.inodes[i], off / BSIZE) < |g.d|
    ensures var a := Slot(g.d, g.inodes[i], off / BSIZE);
            Writing(f0, g.(d := g.d[a := Patched(g.d[a], off % BSIZE, src[off - start..off - start + m])]), i, src, start, off + m)
  {
    var a := Slot(g.d, g.inodes[i], off / BSIZE);
    hide SameFile;
    hide OwnsBut;
    hide ByteAt;
    hide Blocks;
    hide Confined;
    var data := Patched(g.d[a], off % BSIZE, src[off - start..off - start + m]);
    var h := g.(d := g.d[a := data]);
    var size := f0.inodes[i].size;
    DenseStep(f, g, i, off, m, size);
    DataWritten(g, i, off / BSIZE, data);
    StepOthers(f0, f, g, h, i);
    forall p: nat | p < Max(size, off + m)
      ensures ByteAt(h.d, h.inodes[i], p) == if start <= p < off + m then src[p - start] else ByteAt(f0.d, f0.inodes[i], p)
    {
      StepBytes(f0, f, g, i, src, start, off, m, h.d, p);
    }
    if off + m <= size {
      assert Slot(f.d, f.inodes[i], off / BSIZE) != 0;
    }
  }

  lemma StepOthers(f0: Fs, f: Fs, g: Fs, h: Fs, i: nat)
    requires OthersSame(f0, f, i) && OthersSame(f, g, i) && OthersSame(g, h, i) && Confined(f0, f, i) && Confined(f, g, i) && Confined(g, h, i)
    ensures OthersSame(f0, h, i) && Confined(f0, h, i)
  {
    OthersChain(f0, f, g, i);
    OthersChain(f0, g, h, i);
    ConfinedChain(f0, f, g, i);
    ConfinedChain(f0, g, h, i);
  }

  lemma WrittenByte(f0: Fs, f: Fs, g: Fs, i: nat, src: seq<Byte>, start: nat, off: nat, m: nat, p: nat)
    requires Writing(f0, f, i, src, start, off) && Mapped(f, g, i, off / BSIZE)
    requires 0 < m <= BSIZE - off % BSIZE && off + m <= start + |src| <= MAXFILE * BSIZE
    requires Slot(g.d, g.inodes[i], off / BSIZE) < |g.d| && p / BSIZE == off / BSIZE && p < Max(f0.inodes[i].size, off + m)
    ensures var a := Slot(g.d, g.inodes[i], off / BSIZE);
            Patched(g.d[a], off % BSIZE, src[off - start..off - start + m])[p % BSIZE] ==
              if start <= p < off + m then src[p - start] else ByteAt(f0.d, f0.inodes[i], p)
  {
    assert Slot(f.d, f.inodes[i], off / BSIZE) != 0 <==> off / BSIZE * BSIZE < Max(f0.inodes[i].size, off);
    if !(off <= p < off + m) {
      assert ByteAt(f.d, f.inodes[i], p) == if start <= p < off then src[p - start] else ByteAt(f0.d, f0.inodes[i], p);
    }
  }

  lemma OthersChain(f: Fs, g: Fs, h: Fs, i: nat)
    requires OthersSame(f, g, i) && OthersSame(g, h, i)
    ensures OthersSame(f, h, i)
  {
    forall j | 0 <= j < |f.inodes| && j != i
      ensures SameFile(f, h, j)
    {
      assert h.inodes[j] == g.inodes[j] == f.inodes[j];
      assert SameFile(f, g, j) && SameFile(g, h, j);
      forall p: nat
        ensures ByteAt(h.d, f.inodes[j], p) == ByteAt(f.d, f.inodes[j], p)
      {
        assert ByteAt(g.d, f.inodes[j], p) == ByteAt(f.d, f.inodes[j], p);
      }
      forall k | 0 <= k <= MAXFILE
        ensures Slot(h.d, f.inodes[j], k) == Slot(f.d, f.inodes[j], k)
      {
        assert Slot(g.d, f.inodes[j], k) == Slot(f.d, f.inodes[j], k);
      }
    }
  }

  /** When the loop is done the file is the old one with src spliced in. */
  lemma WrittenContent(f0: Fs, f: Fs, i: nat, src: seq<Byte>, start: nat)
    requires Writing(f0, f, i, src, start, start + |src|)
    ensures var ino := f.inodes[i].(size := Max(f0.inodes[i].size, start + |src|));
            Content(f.d, ino) == Splice(Content(f0.d, f0.inodes[i]), start, src)
  {
    var ino := f.inodes[i].(size := Max(f0.inodes[i].size, start + |src|));
    var before, after := Content(f0.d, f0.inodes[i]), Content(f.d, ino);
    var spliced := Splice(before, start, src);
    assert |after| == |spliced|;
    forall p | 0 <= p < |after|
      ensures after[p] == spliced[p]
    {
      assert ByteAt(f.d, ino, p) == ByteAt(f.d, f.inodes[i], p);
    }
  }

  /** A change of size alone, to what the blocks can hold, keeps all invariants. */
  lemma Resized(f0: Fs, f: Fs, i: nat, src: seq<Byte>, start: nat, size: nat)
    requires Writing(f0, f, i, src, start, start + |src|) && AllDense(f0) && size == Max(f0.inodes[i].size, start + |src|)
    ensures var f' := f.(inodes := f.inodes[i := f.inodes[i].(size := size)]); Owns(f') && AllDense(f') && OthersSame(f0, f', i)
  {
    var f' := f.(inodes := f.inodes[i := f.inodes[i].(size := size)]);
    forall j, x | 0 <= j < |f'.inodes| && 0 <= x <= MAXFILE
      ensures SlotOk(f', j, x)
    {
      assert SlotOk(f, j, x);
    }
    forall b | 0 <= b < |f'.owner|
      ensures BlockOk(f', b)
    {
      assert BlockOk(f, b);
    }
    forall j | 0 <= j < |f.inodes| && j != i
      ensures SameFile(f0, f', j) && Dense(f'.d, f'.inodes[j], f'.inodes[j].size)
    {
      assert f.inodes[j] == f0.inodes[j] && SameFile(f0, f, j);
      SameContent(f0, f, j);
    }
    forall k | 0 <= k <= MAXFILE
      ensures Slot(f'.d, f'.inodes[i], k) == Slot(f.d, f.inodes[i], k)
    {
    }
    assert Dense(f.d, f.inodes[i], size);
  }

  lemma OtherInodes(f0: Fs, f: Fs, i: nat, ino: Inode)
    requires OthersSame(f0, f, i) && i < |f0.inodes|
    ensures f0.inodes[i := ino] == f.inodes[i := ino]
  {
  }

  // ----- steps of itrunc -----

  /** Freeing a block of inode t leaves the bytes of the other files alone. */
  lemma FreedOthers(f: Fs, f': Fs, t: nat, lo: nat, b: nat)
    requires OwnsBut(f, t, lo) && lo <= MAXFILE && Freed(f.sb, f.d, f'.d, b) && |f'.inodes| == |f.inodes|
    requires forall j | 0 <= j < |f.inodes| && j != t :: f'.inodes[j] == f.inodes[j]
    ensures OthersSame(f, f', t)
  {
    forall j | 0 <= j < |f.inodes| && j != t
      ensures SameFile(f, f', j)
    {
      forall k | 0 <= k <= MAXFILE
        ensures Slot(f'.d, f.inodes[j], k) == Slot(f.d, f.inodes[j], k)
        ensures Slot(f.d, f.inodes[j], k) != 0 ==>
                  Slot(f.d, f.inodes[j], k) < |f.d| && f'.d[Slot(f.d, f.inodes[j], k)] == f.d[Slot(f.d, f.inodes[j], k)]
      {
        FreedSlot(f, t, lo, f'.d, b, j, k);
        assert SlotOk(f, j, k);
      }
      SameBytes(f, f', j);
    }
  }

  // ----- an image without files -----

  function EmptyInode(): Inode {
    Inode(0, seq(NDIRECT + 1, i => 0))
  }

  /** The owners of an image that holds no file. */
  function NoOwners(sb: Superblock): seq<Owner> {
    seq(sb.size, b => if b < sb.dataStart then Reserved else Free)
  }

  /** An image with empty inodes in which exactly the metadata is marked used satisfies the invariants. */
  lemma EmptyImage(sb: Superblock, d: Disk, n: nat)
    requires LayoutOk(sb) && |d| == sb.size && forall b | 0 <= b < sb.size :: Used(sb, d, b) <==> b < sb.dataStart
    ensures var f := Fs(sb, d, seq(n, i => EmptyInode()), NoOwners(sb)); Owns(f) && AllDense(f)
  {
  }
}
