/** Block allocation and file contents of fs.c as code. */
module FsCode {
  import opened FsDisk
  import opened FsOwner
  import opened FsFiles

  /** None stands for a panic. */
  datatype Option<T> = None | Some(value: T)

  /** The result of readi and writei: -1, the bytes transferred, or a panic. */
  datatype Io = Error | Done(bytes: seq<Byte>) | Panic

  class FileSystem {
    const sb: Superblock
    /** The blocks, as bread returns them. */
    var disk: Disk
    /** The inodes in memory, and their copies in the inode blocks. */
    var inodes: seq<Inode>
    var dinodes: seq<Inode>
    ghost var owner: seq<Owner>

    ghost function View(): Fs
      reads this
    {
      Fs(sb, disk, inodes, owner)
    }

    ghost predicate Valid()
      reads this
    {
      Owns(View()) && AllDense(View()) && dinodes == inodes
    }

    /** A file system on an image with n empty inodes. */
    constructor (sb: Superblock, disk: Disk, n: nat)
      requires LayoutOk(sb) && |disk| == sb.size && forall b | 0 <= b < sb.size :: Used(sb, disk, b) <==> b < sb.dataStart
      ensures Valid() && |inodes| == n && this.sb == sb && this.disk == disk
    {
      EmptyImage(sb, disk, n);
      this.sb, this.disk, owner := sb, disk, NoOwners(sb);
      inodes, dinodes := seq(n, i => EmptyInode()), seq(n, i => EmptyInode());
    }

    /** balloc; panics exactly if every bit is set. */
    method Balloc() returns (b: Option<nat>)
      requires DiskOk(sb, disk)
      modifies this`disk
      ensures b.Some? ==> b.value < sb.size && !Used(sb, old(disk), b.value) && Allocated(sb, old(disk), disk, b.value)
      ensures b.Some? ==> forall x | 0 <= x < b.value :: Used(sb, old(disk), x)
      ensures b.None? ==> disk == old(disk) && forall x | 0 <= x < sb.size :: Used(sb, disk, x)
    {
      hide Used;
      hide Allocated;
      var n := 0;
      while n < sb.size
        invariant n % BPB == 0 && disk == old(disk)
        invariant forall x | 0 <= x < n && x < sb.size :: Used(sb, disk, x)
      {
        UsedAt(sb, disk, n, 0);
        var bp := sb.bmapstart + n / BPB;
        var bi := 0;
        while bi < BPB && n + bi < sb.size
          invariant 0 <= bi <= BPB && disk == old(disk)
          invariant forall x | 0 <= x < n + bi && x < sb.size :: Used(sb, disk, x)
        {
          UsedAt(sb, disk, n, bi);
          if !disk[bp][bi / 8][bi % 8] {
            Take(n + bi);
            return Some(n + bi);
          }
          bi := bi + 1;
        }
        n := n + BPB;
      }
      b := None;
    }

    /** Sets the bit of block b and zeroes the block. */
    method Take(b: nat)
      requires DiskOk(sb, disk) && b < sb.size && !Used(sb, disk, b)
      modifies this`disk
      ensures Allocated(sb, old(disk), disk, b)
    {
      var bp := sb.bmapstart + b / BPB;
      forall x | 0 <= x < sb.size
        ensures Used(sb, Marked(sb, disk, b), x) <==> x == b || Used(sb, disk, x)
      {
        UsedAfterMark(sb, disk, b, x);
      }
      ghost var d := disk;
      BitWritten(disk[bp], b, true);
      disk := disk[bp := disk[bp][b % BPB / 8 := disk[bp][b % BPB / 8][b % 8 := true]]];
      assert disk == Marked(sb, d, b);
      // bzero
      disk := disk[b := ZeroBlock()];
    }

    /** bfree; panics exactly if the bit is clear. */
    method Bfree(b: nat) returns (panicked: bool)
      requires LayoutOk(sb) && |disk| == sb.size && b < sb.size
      modifies this`disk
      ensures panicked <==> !Used(sb, old(disk), b)
      ensures if panicked then disk == old(disk) else Freed(sb, old(disk), disk, b)
      ensures MapOnly(sb, old(disk), disk)
    {
      var bp := sb.bmapstart + b / BPB;
      var bi := b % BPB;
      SameBit(b);
      assert Used(sb, disk, b) <==> disk[bp][bi / 8][bi % 8];
      if !disk[bp][bi / 8][bi % 8] {
        return true;
      }
      forall x | 0 <= x < sb.size
        ensures Used(sb, Cleared(sb, disk, b), x) <==> x != b && Used(sb, disk, x)
      {
        UsedAfterClear(sb, disk, b, x);
      }
      ghost var d := disk;
      BitWritten(disk[bp], b, false);
      hide Used;
      disk := disk[bp := disk[bp][bi / 8 := disk[bp][bi / 8][bi % 8 := false]]];
      assert disk == Cleared(sb, d, b);
      MapBlock(sb, b);
      panicked := false;
    }

    /** balloc under the ownership invariant: the block is free, so it is not block 0. */
    method BallocFree() returns (b: Option<nat>)
      requires Owns(View())
      modifies this`disk
      ensures b.Some? ==> 0 < b.value < |owner| && owner[b.value] == Free && Allocated(sb, old(disk), disk, b.value)
      ensures b.None? ==> disk == old(disk) && FreeCount(owner) == 0
    {
      forall x | 0 <= x < sb.size
        ensures Used(sb, disk, x) <==> owner[x] != Free
        ensures x < sb.dataStart ==> owner[x] == Reserved
      {
        assert BlockOk(View(), x);
      }
      b := Balloc();
      if b == None {
        NoneFree(owner);
      }
    }

    /** ip->addrs[...] = balloc(ip->dev) */
    method Claim(i: nat, k: nat) returns (b: Option<nat>)
      requires Owns(View()) && i < |inodes| && (k < NDIRECT || k == MAXFILE) && Slot(disk, inodes[i], k) == 0
      modifies this`disk, this`inodes, this`owner
      ensures b.Some? ==> Gained(old(View()), View(), i, k) && Slot(disk, inodes[i], k) == b.value
      ensures b.None? ==> FreeCount(old(owner)) == 0
    {
      ghost var f := View();
      b := BallocFree();
      if b.Some? {
        ClaimedGained(f, i, k, b.value, disk);
        inodes := inodes[i := inodes[i].(addrs := inodes[i].addrs[if k == MAXFILE then NDIRECT else k := b.value])];
        owner := owner[b.value := Owned(i, k)];
        assert View() == Claimed(f, i, k, b.value, disk);
      }
    }

    /** a[bn] = balloc(ip->dev) in the indirect block */
    method Enter(i: nat, k: nat) returns (b: Option<nat>)
      requires Owns(View()) && i < |inodes| && NDIRECT <= k < MAXFILE && inodes[i].addrs[NDIRECT] != 0 && Slot(disk, inodes[i], k) == 0
      modifies this`disk, this`owner
      ensures b.Some? ==> Gained(old(View()), View(), i, k) && Slot(disk, inodes[i], k) == b.value
      ensures b.None? ==> FreeCount(old(owner)) == 0
    {
      ghost var f := View();
      assert SlotOk(f, i, MAXFILE);
      var bp := inodes[i].addrs[NDIRECT];
      b := BallocFree();
      if b.Some? {
        EnteredGained(f, i, k, b.value, disk);
        EnteredSlot(f, i, k, b.value, disk, i, k);
        ghost var d := disk;
        disk := disk[bp := SetWord(disk[bp], k - NDIRECT, b.value)];
        owner := owner[b.value := Owned(i, k)];
        assert View() == Entered(f, i, k, b.value, d);
      }
    }

    /** bmap: the block that holds block bn of the file, allocated if there is none. */
    method Bmap(i: nat, bn: nat) returns (addr: Option<nat>)
      requires Owns(View()) && i < |inodes|
      modifies this`disk, this`inodes, this`owner
      ensures addr.Some? ==> Mapped(old(View()), View(), i, bn) && addr.value == Slot(disk, inodes[i], bn) < |disk|
      ensures addr.None? <==> bn >= MAXFILE || FreeCount(old(owner)) < Needed(old(View()), i, bn)
    {
      ghost var f := View();
      if bn < NDIRECT {
        if inodes[i].addrs[bn] == 0 {
          addr := Claim(i, bn);
          if addr == None {
            return;
          }
          MappedByOne(f, View(), i, bn);
        } else {
          SameMapped(f, i, bn);
        }
        assert SlotOk(View(), i, bn);
        return Some(inodes[i].addrs[bn]);
      }
      if bn >= MAXFILE {
        return None;
      }
      addr := BmapIndirect(i, bn);
    }

    /** The second half of bmap: blocks that the indirect block lists. */
    method BmapIndirect(i: nat, bn: nat) returns (addr: Option<nat>)
      requires Owns(View()) && i < |inodes| && NDIRECT <= bn < MAXFILE
      modifies this`disk, this`inodes, this`owner
      ensures addr.Some? ==> Mapped(old(View()), View(), i, bn) && addr.value == Slot(disk, inodes[i], bn) < |disk|
      ensures addr.None? <==> FreeCount(old(owner)) < Needed(old(View()), i, bn)
    {
      ghost var f := View();
      if inodes[i].addrs[NDIRECT] == 0 {
        addr := Claim(i, MAXFILE);
        if addr == None {
          return;
        }
      }
      ghost var g := View();
      assert SlotOk(g, i, MAXFILE);
      assert Slot(g.d, g.inodes[i], bn) == Slot(f.d, f.inodes[i], bn);
      addr := Some(Word(disk[inodes[i].addrs[NDIRECT]], bn - NDIRECT));
      if addr.value == 0 {
        addr := Enter(i, bn);
        if addr == None {
          return;
        }
        if Slot(f.d, f.inodes[i], MAXFILE) == 0 {
          MappedByTwo(f, g, View(), i, bn);
        } else {
          MappedByOne(f, View(), i, bn);
        }
      } else {
        SameMapped(f, i, bn);
      }
      assert SlotOk(View(), i, bn);
    }

    // ----- readi and writei -----

    method Iupdate(i: nat)
      requires i < |inodes| == |dinodes|
      modifies this`dinodes
      ensures dinodes == old(dinodes)[i := inodes[i]]
    {
      dinodes := dinodes[i := inodes[i]];
    }

    /** readi of n bytes: a slice of the file, without a panic and without any change. */
    method Readi(i: nat, off: nat, n: nat) returns (r: Io)
      requires Valid() && i < |inodes| && off < UINT && n < UINT
      modifies this`disk, this`inodes, this`owner
      ensures View() == old(View())
      ensures r == if off > inodes[i].size || off + n >= UINT then Error
                   else Done(Content(disk, inodes[i])[off..Min(off + n, inodes[i].size)])
    {
      if off > inodes[i].size || (off + n) % UINT < off {
        return Error;
      }
      var size := inodes[i].size;
      var count := if off + n > size then size - off else n;
      ghost var f := View();
      var tot, o, dst := 0, off, [];
      while tot < count
        invariant View() == f && 0 <= tot <= count && o == off + tot && dst == Content(f.d, f.inodes[i])[off..o]
      {
        assert Dense(f.d, f.inodes[i], size);
        assert Slot(f.d, f.inodes[i], o / BSIZE) != 0;
        var addr := Bmap(i, o / BSIZE);
        assert SlotOk(f, i, o / BSIZE);
        var m := Chunk(count - tot, o);
        ReadChunk(f, i, off, o, m);
        dst := dst + disk[addr.value][o % BSIZE..o % BSIZE + m];
        tot, o := tot + m, o + m;
      }
      r := Done(dst);
    }

    /** The loop of writei; false is a panic for lack of blocks. */
    method WriteBlocks(i: nat, src: seq<Byte>, off: nat) returns (ok: bool)
      requires Owns(View()) && AllDense(View()) && i < |inodes| && off <= inodes[i].size && off + |src| <= MAXFILE * BSIZE
      modifies this`disk, this`inodes, this`owner
      ensures ok ==> Writing(old(View()), View(), i, src, off, off + |src|)
      ensures !ok ==> FreeCount(old(owner)) + Blocks(old(inodes)[i].size) < Blocks(Max(old(inodes)[i].size, off + |src|))
    {
      hide OwnsBut;
      hide SameFile;
      hide Slot;
      hide ByteAt;
      hide Blocks;
      ghost var f0 := View();
      WritingStarts(f0, i, src, off);
      var n := |src|;
      var tot, o := 0, off;
      while tot < n
        invariant 0 <= tot <= n && o == off + tot && Writing(f0, View(), i, src, off, o)
      {
        ghost var f := View();
        var addr := Bmap(i, o / BSIZE);
        var m := Chunk(n - tot, o);
        if addr == None {
          NotEnough(f0, f, i, src, off, o, m);
          return false;
        }
        WritingStep(f0, f, View(), i, src, off, o, m);
        disk := disk[addr.value := Patched(disk[addr.value], o % BSIZE, src[tot..tot + m])];
        tot, o := tot + m, o + m;
      }
      ok := true;
    }

    /** writei of the bytes src: splices them into the file, or changes nothing, or panics for lack
        of blocks.  The last two are told apart by what a caller knows before the call. */
    method Writei(i: nat, src: seq<Byte>, off: nat) returns (r: Io)
      requires Valid() && i < |inodes| && off < UINT && |src| < UINT
      modifies this`disk, this`inodes, this`dinodes, this`owner
      ensures r == Error <==> off > old(inodes)[i].size || off + |src| > MAXFILE * BSIZE
      ensures r == Panic <==> r != Error && FreeCount(old(owner)) + Blocks(old(inodes)[i].size) < Blocks(Max(old(inodes)[i].size, off + |src|))
      ensures r == Error ==> View() == old(View()) && dinodes == old(dinodes)
      ensures r.Done? ==> r == Done(src) && Valid() && OthersSame(old(View()), View(), i) && Confined(old(View()), View(), i)
      ensures r.Done? ==> off <= |Content(old(disk), old(inodes)[i])|
                          && Content(disk, inodes[i]) == Splice(Content(old(disk), old(inodes)[i]), off, src)
    {
      hide OwnsBut;
      hide SameFile;
      hide Slot;
      hide ByteAt;
      hide Content;
      hide Blocks;
      hide Splice;
      hide Confined;
      var n := |src|;
      if off > inodes[i].size || (off + n) % UINT < off {
        return Error;
      }
      if (off + n) % UINT > MAXFILE * BSIZE {
        return Error;
      }
      ghost var f0 := View();
      var ok := WriteBlocks(i, src, off);
      if !ok {
        return Panic;
      }
      WrittenContent(f0, View(), i, src, off);
      Resized(f0, View(), i, src, off, Max(f0.inodes[i].size, off + n));
      if n > 0 && off + n > inodes[i].size {
        OtherInodes(f0, View(), i, inodes[i].(size := off + n));
        ConfinedInodes(f0, View(), i, inodes[i := inodes[i].(size := off + n)]);
        inodes := inodes[i := inodes[i].(size := off + n)];
        Iupdate(i);
      } else {
        assert inodes[i := inodes[i].(size := inodes[i].size)] == inodes;
      }
      r := Done(src);
    }

    /** What writei wrote is what readi reads, together with what was there before, wherever the reader looks. */
    method WriteThenRead(i: nat, src: seq<Byte>, off: nat, from: nat, n: nat) returns (w: Io, r: Io)
      requires Valid() && i < |inodes| && off < UINT && |src| < UINT && from < UINT && n < UINT
      modifies this`disk, this`inodes, this`dinodes, this`owner
      ensures w == Error <==> off > old(inodes)[i].size || off + |src| > MAXFILE * BSIZE
      ensures w == Panic <==> w != Error && FreeCount(old(owner)) + Blocks(old(inodes)[i].size) < Blocks(Max(old(inodes)[i].size, off + |src|))
      ensures !w.Done? ==> r == w
      ensures w.Done? ==> Valid() && off <= |Content(old(disk), old(inodes)[i])| &&
                          var file := Splice(Content(old(disk), old(inodes)[i]), off, src);
                          r == if from > |file| || from + n >= UINT then Error else Done(file[from..Min(from + n, |file|)])
      ensures w.Done? && from == off && n == |src| ==> r == Done(src)
    {
      hide Content;
      hide Blocks;
      hide FreeCount;
      w := Writei(i, src, off);
      if !w.Done? {
        return w, w;
      }
      r := Readi(i, from, n);
    }

    // ----- itrunc -----

    /** Frees the block in slot k of the address array and clears the slot, for an inode whose indirect
        block has been freed word by word if the slot is the last one. */
    method Release(t: nat, k: nat, ghost lo: nat, ghost f0: Fs)
      requires OwnsBut(View(), t, lo) && t < |inodes| && (if k == MAXFILE then lo == MAXFILE else k < NDIRECT && lo == 0)
      requires Slot(disk, inodes[t], k) != 0 && FreedBelow(f0.owner, owner, t, k) && OthersSame(f0, View(), t)
      modifies this`disk, this`inodes, this`owner
      ensures Owns(View()) && FreedBelow(f0.owner, owner, t, k + 1) && OthersSame(f0, View(), t)
      ensures inodes[t] == WithAddr(old(inodes)[t], k, 0) && MapOnly(sb, old(disk), disk)
    {
      hide SameFile;
      ghost var f := View();
      assert SlotOk(f, t, k);
      var b := inodes[t].addrs[if k == MAXFILE then NDIRECT else k];
      assert BlockOk(f, b);
      var panicked := Bfree(b);
      assert !panicked;
      ReleasedOwns(f, t, lo, k, disk);
      FreedOneMore(f0.owner, f, t, lo, k);
      inodes := inodes[t := inodes[t].(addrs := inodes[t].addrs[if k == MAXFILE then NDIRECT else k := 0])];
      owner := owner[b := Free];
      assert View() == Released(f, t, k, disk);
      FreedOthers(f, View(), t, lo, b);
      OthersChain(f0, f, View(), t);
    }

    /** itrunc's loop over the direct blocks. */
    method TruncDirect(t: nat)
      requires Owns(View()) && t < |inodes|
      modifies this`disk, this`inodes, this`owner
      ensures Owns(View()) && FreedBelow(old(owner), owner, t, NDIRECT) && OthersSame(old(View()), View(), t)
      ensures inodes[t].size == old(inodes)[t].size && forall k | 0 <= k < NDIRECT :: inodes[t].addrs[k] == 0
      ensures MapOnly(sb, old(disk), disk)
    {
      ghost var f0 := View();
      SameOthers(f0, t);
      var j := 0;
      while j < NDIRECT
        invariant 0 <= j <= NDIRECT && Owns(View()) && FreedBelow(f0.owner, owner, t, j) && OthersSame(f0, View(), t)
        invariant inodes[t].size == f0.inodes[t].size && forall k | 0 <= k < j :: inodes[t].addrs[k] == 0
        invariant MapOnly(sb, f0.d, disk)
      {
        OwnsAny(View(), t);
        if inodes[t].addrs[j] != 0 {
          Release(t, j, 0, f0);
        } else {
          FreedOneMore(f0.owner, View(), t, 0, j);
        }
        j := j + 1;
      }
    }

    /** The loop over the words of the indirect block. */
    method TruncWords(t: nat, ghost f0: Fs)
      requires Owns(View()) && t < |inodes| && inodes[t].addrs[NDIRECT] != 0
      requires FreedBelow(f0.owner, owner, t, NDIRECT) && OthersSame(f0, View(), t)
      modifies this`disk, this`owner
      ensures OwnsBut(View(), t, MAXFILE) && FreedBelow(f0.owner, owner, t, MAXFILE) && OthersSame(f0, View(), t)
      ensures MapOnly(sb, old(disk), disk)
    {
      hide SameFile;
      OwnsAny(View(), t);
      assert SlotOk(View(), t, MAXFILE);
      var bp := inodes[t].addrs[NDIRECT];
      var k := NDIRECT;
      while k < MAXFILE
        invariant NDIRECT <= k <= MAXFILE && OwnsBut(View(), t, k) && FreedBelow(f0.owner, owner, t, k) && OthersSame(f0, View(), t)
        invariant bp < |disk| && MapOnly(sb, old(disk), disk)
      {
        ghost var f := View();
        assert SlotOk(f, t, k);
        FreedOneMore(f0.owner, f, t, k, k);
        var b := Word(disk[bp], k - NDIRECT);
        if b != 0 {
          assert BlockOk(f, b);
          var panicked := Bfree(b);
          assert !panicked;
          DroppedOwns(f, t, k, disk);
          owner := owner[b := Free];
          assert View() == Dropped(f, t, k, disk);
          FreedOthers(f, View(), t, k, b);
          OthersChain(f0, f, View(), t);
        } else {
          SkippedOwns(f, t, k);
        }
        k := k + 1;
      }
    }

    /** itrunc: frees exactly the blocks of the inode, its indirect block among them, without a panic. */
    method Itrunc(t: nat)
      requires Valid() && t < |inodes|
      modifies this`disk, this`inodes, this`dinodes, this`owner
      ensures Valid() && OthersSame(old(View()), View(), t) && Content(disk, inodes[t]) == []
      ensures FreedBelow(old(owner), owner, t, MAXFILE + 1) && MapOnly(sb, old(disk), disk)
      ensures forall b | 0 <= b < sb.size ::
                Used(sb, disk, b) <==> Used(sb, old(disk), b) && !(old(owner)[b].Owned? && old(owner)[b].i == t)
    {
      ghost var f0 := View();
      TruncDirect(t);
      if inodes[t].addrs[NDIRECT] != 0 {
        TruncWords(t, f0);
        Release(t, MAXFILE, MAXFILE, f0);
      } else {
        NoMoreSlots(f0.owner, View(), t);
      }
      OtherInodes(f0, View(), t, inodes[t].(size := 0));
      Truncated(f0, View(), t);
      inodes := inodes[t := inodes[t].(size := 0)];
      Iupdate(t);
    }
  }

  /** Blocks outside the free map are unchanged. */
  ghost predicate MapOnly(sb: Superblock, d: Disk, d': Disk) {
    |d'| == |d| && forall x {:trigger d'[x]} | 0 <= x < |d| && !InMap(sb, x) :: d'[x] == d[x]
  }

  function Min(a: nat, b: nat): nat {
    if a < b then a else b
  }

  lemma ReadChunk(f: Fs, i: nat, start: nat, off: nat, m: nat)
    requires Owns(f) && i < |f.inodes| && start <= off && off + m <= f.inodes[i].size && m <= BSIZE - off % BSIZE
    requires off / BSIZE < MAXFILE && 0 != Slot(f.d, f.inodes[i], off / BSIZE) < |f.d|
    ensures var c := Content(f.d, f.inodes[i]);
            c[start..off] + f.d[Slot(f.d, f.inodes[i], off / BSIZE)][off % BSIZE..off % BSIZE + m] == c[start..off + m]
  {
  }

  /** bmap can only fail in writei because the whole write needs more blocks than are free. */
  lemma NotEnough(f0: Fs, f: Fs, i: nat, src: seq<Byte>, start: nat, off: nat, m: nat)
    requires Writing(f0, f, i, src, start, off) && 0 < m <= BSIZE - off % BSIZE && off + m <= start + |src| <= MAXFILE * BSIZE
    requires off / BSIZE < MAXFILE && FreeCount(f.owner) < Needed(f, i, off / BSIZE)
    ensures FreeCount(f0.owner) + Blocks(f0.inodes[i].size) < Blocks(Max(f0.inodes[i].size, start + |src|))
  {
  }

  lemma SameMapped(f: Fs, i: nat, bn: nat)
    requires Owns(f) && i < |f.inodes| && bn < MAXFILE && Slot(f.d, f.inodes[i], bn) != 0
    ensures Mapped(f, f, i, bn)
  {
    forall j | 0 <= j < |f.inodes|
      ensures SameFile(f, f, j)
    {
    }
  }

  lemma SameOthers(f: Fs, t: nat)
    requires Owns(f)
    ensures OthersSame(f, f, t)
  {
    forall j | 0 <= j < |f.inodes|
      ensures SameFile(f, f, j)
    {
    }
  }

  /** Without an indirect block there is nothing left to free after the direct blocks. */
  lemma NoMoreSlots(owner: seq<Owner>, f: Fs, t: nat)
    requires FreedBelow(owner, f.owner, t, NDIRECT) && Owns(f) && t < |f.inodes| && f.inodes[t].addrs[NDIRECT] == 0
    ensures FreedBelow(owner, f.owner, t, MAXFILE + 1)
  {
    forall b | 0 <= b < |f.owner|
      ensures f.owner[b].Owned? && f.owner[b].i == t ==> f.owner[b].k < NDIRECT
    {
      assert BlockOk(f, b);
    }
  }

  lemma Truncated(f0: Fs, f: Fs, t: nat)
    requires Owns(f0) && AllDense(f0) && Owns(f) && t < |f.inodes| && f.sb == f0.sb && OthersSame(f0, f, t)
    requires FreedBelow(f0.owner, f.owner, t, MAXFILE + 1)
    requires forall k | 0 <= k <= NDIRECT :: f.inodes[t].addrs[k] == 0
    ensures var f' := f.(inodes := f.inodes[t := f.inodes[t].(size := 0)]);
            Owns(f') && AllDense(f') && OthersSame(f0, f', t) && Content(f'.d, f'.inodes[t]) == []
    ensures forall b | 0 <= b < f.sb.size ::
              Used(f.sb, f.d, b) <==> Used(f0.sb, f0.d, b) && !(f0.owner[b].Owned? && f0.owner[b].i == t)
  {
    var f' := f.(inodes := f.inodes[t := f.inodes[t].(size := 0)]);
    forall j, x | 0 <= j < |f'.inodes| && 0 <= x <= MAXFILE
      ensures SlotOk(f', j, x)
    {
      assert SlotOk(f, j, x);
    }
    forall b | 0 <= b < |f'.owner|
      ensures BlockOk(f', b) && (Used(f.sb, f.d, b) <==> Used(f0.sb, f0.d, b) && !(f0.owner[b].Owned? && f0.owner[b].i == t))
    {
      assert BlockOk(f, b) && BlockOk(f0, b);
    }
    forall j | 0 <= j < |f.inodes| && j != t
      ensures SameFile(f0, f', j) && Dense(f'.d, f'.inodes[j], f'.inodes[j].size)
    {
      assert f.inodes[j] == f0.inodes[j] && SameFile(f0, f, j);
      SameContent(f0, f, j);
    }
  }
}
