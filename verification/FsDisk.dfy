/** Disk blocks as fs.c reads them: bytes, little-endian words and the bits of the free map. */
module FsDisk {
  const BSIZE: nat := 512
  const NDIRECT := 12
  const NINDIRECT := 128
  const MAXFILE := 140
  /** Bits of the free map in one block. */
  const BPB := 4096
  const UINT := 0x1_0000_0000

  /** A byte is its eight bits, lowest first. */
  type Byte = s: seq<bool> | |s| == 8 witness seq(8, i => false)
  type Block = s: seq<Byte> | |s| == BSIZE witness seq(BSIZE, i => Zero())

  function Zero(): Byte {
    seq(8, i => false)
  }

  function ZeroBlock(): Block {
    seq(BSIZE, i => Zero())
  }

  // ----- words -----

  function Pow2(n: nat): (p: nat)
    ensures p > 0
  {
    if n == 0 then 1 else 2 * Pow2(n - 1)
  }

  /** The number with these bits, lowest first. */
  function Number(bits: seq<bool>): nat {
    if bits == [] then 0 else (if bits[0] then 1 else 0) + 2 * Number(bits[1..])
  }

  /** The lowest n bits of w. */
  function Bits(w: nat, n: nat): (bits: seq<bool>)
    ensures |bits| == n
  {
    if n == 0 then [] else [w % 2 == 1] + Bits(w / 2, n - 1)
  }

  lemma {:induction false} NumberOfBits(w: nat, n: nat)
    requires w < Pow2(n)
    ensures Number(Bits(w, n)) == w
  {
    if n > 0 {
      NumberOfBits(w / 2, n - 1);
      assert Bits(w, n)[1..] == Bits(w / 2, n - 1);
    }
  }

  lemma {:induction false} NumberZero(n: nat)
    ensures Number(seq(n, i => false)) == 0
  {
    if n > 0 {
      NumberZero(n - 1);
      assert seq(n, i => false)[1..] == seq(n - 1, i => false);
    }
  }

  lemma UintRange()
    ensures Pow2(32) == UINT
  {
    assert Pow2(8) == 0x100;
    assert Pow2(16) == 0x1_0000;
    assert Pow2(24) == 0x100_0000;
  }

  function Joined(a: seq<bool>, b: seq<bool>, c: seq<bool>, d: seq<bool>): seq<bool> {
    a + b + c + d
  }

  /** ((uint*)data)[j], on a machine that stores the lowest byte first. */
  function Word(b: Block, j: nat): (w: nat)
    requires j < NINDIRECT
  {
    Number(Joined(b[4 * j], b[4 * j + 1], b[4 * j + 2], b[4 * j + 3]))
  }

  lemma {:induction false} NumberJoined(a: seq<bool>, b: seq<bool>)
    ensures Number(a + b) == Number(a) + Pow2(|a|) * Number(b)
  {
    if a == [] {
      assert a + b == b;
    } else {
      assert (a + b)[1..] == a[1..] + b;
      NumberJoined(a[1..], b);
      TwiceProduct(Pow2(|a| - 1), Number(b));
    }
  }

  lemma TwiceProduct(p: nat, n: nat)
    ensures (2 * p) * n == 2 * (p * n)
  {
  }

  /** The word is the sum of its four bytes, each 256 times as much as the one before it. */
  lemma WordIs(b: Block, j: nat)
    requires j < NINDIRECT
    ensures Word(b, j) == Number(b[4 * j]) + 0x100 * Number(b[4 * j + 1]) + 0x1_0000 * Number(b[4 * j + 2]) + 0x100_0000 * Number(b[4 * j + 3])
  {
    var x: seq<bool>, y: seq<bool>, z: seq<bool>, w: seq<bool> := b[4 * j], b[4 * j + 1], b[4 * j + 2], b[4 * j + 3];
    assert Pow2(8) == 0x100;
    assert Pow2(16) == 0x1_0000;
    assert Pow2(24) == 0x100_0000;
    NumberJoined(x, y);
    NumberJoined(x + y, z);
    NumberJoined(x + y + z, w);
  }

  /** ((uint*)data)[j] = w */
  function SetWord(b: Block, j: nat, w: nat): Block
    requires j < NINDIRECT
  {
    var bits := Bits(w, 32);
    b[4 * j := bits[..8]][4 * j + 1 := bits[8..16]][4 * j + 2 := bits[16..24]][4 * j + 3 := bits[24..]]
  }

  lemma WordAfterSet(b: Block, j: nat, w: nat, k: nat)
    requires j < NINDIRECT && k < NINDIRECT && w < UINT
    ensures Word(SetWord(b, j, w), k) == if k == j then w else Word(b, k)
  {
    if k == j {
      var bits := Bits(w, 32);
      assert Joined(bits[..8], bits[8..16], bits[16..24], bits[24..]) == bits;
      UintRange();
      NumberOfBits(w, 32);
    }
  }

  lemma ZeroWord(j: nat)
    requires j < NINDIRECT
    ensures Word(ZeroBlock(), j) == 0
  {
    assert Joined(Zero(), Zero(), Zero(), Zero()) == seq(32, i => false);
    NumberZero(32);
  }

  // ----- the free map -----

  /** The layout: [0, dataStart) is metadata, the free map begins at bmapstart. */
  datatype Superblock = Superblock(size: nat, bmapstart: nat, dataStart: nat)

  ghost predicate LayoutOk(sb: Superblock) {
    0 < sb.dataStart <= sb.size && sb.bmapstart + (sb.size - 1) / BPB < sb.dataStart && sb.size + BPB <= 0x8000_0000
  }

  type Disk = seq<Block>

  /** The bit of block b in the free map. */
  predicate Used(sb: Superblock, d: Disk, b: nat)
    requires b < sb.size && sb.bmapstart + b / BPB < |d|
  {
    d[sb.bmapstart + b / BPB][b % BPB / 8][b % 8]
  }

  /** Bit n of a block. */
  predicate BitAt(data: Block, n: nat)
    requires n < BPB
  {
    data[n / 8][n % 8]
  }

  /** Block x is part of the free map. */
  predicate InMap(sb: Superblock, x: nat) {
    sb.size > 0 && sb.bmapstart <= x <= sb.bmapstart + (sb.size - 1) / BPB
  }

  /** data' is data with bit n set to v. */
  ghost predicate OneBit(data: Block, data': Block, n: nat, v: bool) {
    forall m {:trigger BitAt(data', m)} | 0 <= m < BPB :: BitAt(data', m) == if m == n then v else BitAt(data, m)
  }

  ghost predicate DiskOk(sb: Superblock, d: Disk) {
    LayoutOk(sb) && |d| == sb.size && forall b | 0 <= b < sb.dataStart :: Used(sb, d, b)
  }

  function Marked(sb: Superblock, d: Disk, b: nat): Disk
    requires b < sb.size && sb.bmapstart + b / BPB < |d|
  {
    var bb := sb.bmapstart + b / BPB;
    d[bb := d[bb][b % BPB / 8 := d[bb][b % BPB / 8][b % 8 := true]]]
  }

  function Cleared(sb: Superblock, d: Disk, b: nat): Disk
    requires b < sb.size && sb.bmapstart + b / BPB < |d|
  {
    var bb := sb.bmapstart + b / BPB;
    d[bb := d[bb][b % BPB / 8 := d[bb][b % BPB / 8][b % 8 := false]]]
  }

  /** Two blocks with one bit position are one block. */
  lemma SamePlace(a: nat, b: nat)
    requires a / BPB == b / BPB && a % BPB / 8 == b % BPB / 8 && a % 8 == b % 8
    ensures a == b
  {
  }

  lemma UsedAfterMark(sb: Superblock, d: Disk, b: nat, x: nat)
    requires LayoutOk(sb) && |d| == sb.size && b < sb.size && x < sb.size
    ensures Used(sb, Marked(sb, d, b), x) <==> x == b || Used(sb, d, x)
  {
    if x / BPB == b / BPB && x % BPB / 8 == b % BPB / 8 {
      if x % 8 == b % 8 {
        SamePlace(x, b);
      }
    }
  }

  lemma UsedAfterClear(sb: Superblock, d: Disk, b: nat, x: nat)
    requires LayoutOk(sb) && |d| == sb.size && b < sb.size && x < sb.size
    ensures Used(sb, Cleared(sb, d, b), x) <==> x != b && Used(sb, d, x)
  {
    if x / BPB == b / BPB && x % BPB / 8 == b % BPB / 8 {
      if x % 8 == b % 8 {
        SamePlace(x, b);
      }
    }
  }

  /** Writing one bit, as balloc and bfree do. */
  lemma BitWritten(data: Block, b: nat, v: bool)
    ensures OneBit(data, data[b % BPB / 8 := data[b % BPB / 8][b % 8 := v]], b % BPB, v)
  {
    SameBit(b);
    var data' := data[b % BPB / 8 := data[b % BPB / 8][b % 8 := v]];
    forall m | 0 <= m < BPB
      ensures BitAt(data', m) == if m == b % BPB then v else BitAt(data, m)
    {
      SameOffset(m, b % BPB);
    }
  }

  lemma SameOffset(m: nat, n: nat)
    ensures m / 8 == n / 8 && m % 8 == n % 8 <==> m == n
  {
  }

  lemma PlaceAt(n: nat, bi: nat)
    requires n % 4096 == 0 && bi < 4096
    ensures (n + bi) / 4096 == n / 4096 && (n + bi) % 4096 == bi && (n + bi) % 8 == bi % 8
  {
  }

  lemma SameBit(b: nat)
    ensures b % 4096 % 8 == b % 8
  {
  }

  /** The bit that balloc's loops look at. */
  lemma UsedAt(sb: Superblock, d: Disk, n: nat, bi: nat)
    requires LayoutOk(sb) && |d| == sb.size && n % BPB == 0 && bi < BPB && n + bi < sb.size
    ensures sb.bmapstart + n / BPB < |d|
    ensures Used(sb, d, n + bi) <==> d[sb.bmapstart + n / BPB][bi / 8][bi % 8]
  {
    PlaceAt(n, bi);
  }
}
