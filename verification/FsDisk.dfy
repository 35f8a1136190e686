/**
  The on-disk format of the file system (kernel/fs.h): blocks of bytes holding the free
  bitmap, the inodes, indirect blocks and data, with the functions that read and write each.
*/
module FsDisk {
  const BSIZE: nat := 1024
  const NDIRECT: nat := 12
  const NINDIRECT: nat := 256         // BSIZE / sizeof(uint)
  const MAXFILE: nat := 268
  const BPB: nat := 8192              // bitmap bits per block
  const IPB: nat := 16                // inodes per block
  const ISIZE: nat := 64              // sizeof(struct dinode)

  type Byte = x: nat | x < 0x100
  type Block = b: seq<Byte> | |b| == BSIZE witness seq(BSIZE, _ => 0)
  type Disk = seq<Block>
  type Uint = x: nat | x < 0x1_0000_0000
  type Ushort = x: nat | x < 0x1_0000

  function Zeros(): (b: Block)
    ensures forall k :: 0 <= k < BSIZE ==> b[k] == 0
  {
    seq(BSIZE, _ => 0)
  }

  /** Bytes lo.. of s replaced by t. */
  function Splice(s: seq<Byte>, lo: nat, t: seq<Byte>): (r: seq<Byte>)
    requires lo + |t| <= |s|
    ensures |r| == |s|
    ensures forall k :: 0 <= k < |s| ==> r[k] == if lo <= k < lo + |t| then t[k - lo] else s[k]
  {
    s[..lo] + t + s[lo + |t|..]
  }

  // ----- little-endian integers -----

  function Half(b: seq<Byte>): (h: Ushort)
    requires |b| == 2
  {
    (b[0] as nat) + 0x100 * (b[1] as nat)
  }

  function HalfBytes(h: Ushort): (b: seq<Byte>)
    ensures |b| == 2 && Half(b) == h
  {
    [h % 0x100, h / 0x100]
  }

  function Word(b: seq<Byte>): (w: Uint)
    requires |b| == 4
  {
    Half(b[..2]) + 0x1_0000 * Half(b[2..])
  }

  function WordBytes(w: Uint): (b: seq<Byte>)
    ensures |b| == 4
  {
    HalfBytes(w % 0x1_0000) + HalfBytes(w / 0x1_0000)
  }

  /** The least significant byte comes first. */
  lemma LittleEndian(w: Uint)
    ensures var b := WordBytes(w);
            w == (b[0] as nat) + 0x100 * (b[1] as nat) + 0x1_0000 * (b[2] as nat) + 0x100_0000 * (b[3] as nat)
  {
  }

  lemma WordRoundTrip(w: Uint)
    ensures Word(WordBytes(w)) == w
  {
    hide Half, HalfBytes;
    var lo, hi := HalfBytes(w % 0x1_0000), HalfBytes(w / 0x1_0000);
    assert (lo + hi)[..2] == lo && (lo + hi)[2..] == hi;
  }

  // ----- indirect blocks -----

  /** Entry j of an indirect block. */
  function Entry(b: Block, j: nat): Uint
    requires j < NINDIRECT
  {
    Word(b[4 * j..4 * j + 4])
  }

  function PutEntry(b: Block, j: nat, w: Uint): Block
    requires j < NINDIRECT
  {
    Splice(b, 4 * j, WordBytes(w))
  }

  lemma EntryPut(b: Block, j: nat, w: Uint, k: nat)
    requires j < NINDIRECT && k < NINDIRECT
    ensures Entry(PutEntry(b, j, w), k) == if k == j then w else Entry(b, k)
  {
    hide Word, WordBytes;
    var r := PutEntry(b, j, w);
    if k == j {
      assert r[4 * j..4 * j + 4] == WordBytes(w);
      WordRoundTrip(w);
    } else {
      assert r[4 * k..4 * k + 4] == b[4 * k..4 * k + 4];
    }
  }

  lemma EntryZero(j: nat)
    requires j < NINDIRECT
    ensures Entry(Zeros(), j) == 0
  {
    var b := Zeros()[4 * j..4 * j + 4];
    assert b == [0, 0, 0, 0];
    assert b[..2] == [0, 0] && b[2..] == [0, 0];
  }

  // ----- the free bitmap -----

  function Pow2(n: nat): (p: nat)
    ensures p > 0
  {
    if n == 0 then 1 else 2 * Pow2(n - 1)
  }

  /** Bit k of a number. */
  predicate Bit(x: nat, k: nat) { if k == 0 then x % 2 == 1 else Bit(x / 2, k - 1) }

  /** An n-bit number with bit k set or cleared. */
  function PutBit(x: nat, k: nat, on: bool, n: nat): (r: nat)
    requires k < n && x < Pow2(n)
    ensures r < Pow2(n)
    decreases k
  {
    if k == 0 then x / 2 * 2 + (if on then 1 else 0) else x % 2 + 2 * PutBit(x / 2, k - 1, on, n - 1)
  }

  lemma {:induction false} BitPut(x: nat, k: nat, on: bool, n: nat, j: nat)
    requires k < n && x < Pow2(n)
    ensures Bit(PutBit(x, k, on, n), j) == if j == k then on else Bit(x, j)
    decreases k
  {
    if k > 0 && j > 0 { BitPut(x / 2, k - 1, on, n - 1, j - 1); }
  }

  /** Bit bi of a bitmap block. */
  predicate MapBit(b: Block, bi: nat)
    requires bi < BPB
  {
    Bit(b[bi / 8], bi % 8)
  }

  lemma EightBits()
    ensures Pow2(8) == 0x100
  {
    assert Pow2(4) == 16;
  }

  function PutMapBit(b: Block, bi: nat, on: bool): Block
    requires bi < BPB
  {
    EightBits();
    b[bi / 8 := PutBit(b[bi / 8], bi % 8, on, 8)]
  }

  lemma MapBitPut(b: Block, bi: nat, on: bool, bj: nat)
    requires bi < BPB && bj < BPB
    ensures MapBit(PutMapBit(b, bi, on), bj) == if bj == bi then on else MapBit(b, bj)
  {
    hide Bit, PutBit;
    EightBits();
    if bi / 8 == bj / 8 {
      BitPut(b[bi / 8], bi % 8, on, 8, bj % 8);
      assert bi == bi / 8 * 8 + bi % 8 && bj == bj / 8 * 8 + bj % 8;
    }
  }

  // ----- inodes -----

  datatype Fields = Dinode(typ: Ushort, major: Ushort, minor: Ushort, nlink: Ushort, size: Uint, addrs: seq<Uint>)

  type Dinode = x: Fields | |x.addrs| == NDIRECT + 1 witness Dinode(0, 0, 0, 0, 0, seq(NDIRECT + 1, _ => 0))

  function Words(b: seq<Byte>): (ws: seq<Uint>)
    requires |b| % 4 == 0
    ensures |ws| == |b| / 4
  {
    if b == [] then [] else [Word(b[..4])] + Words(b[4..])
  }

  function WordsBytes(ws: seq<Uint>): (b: seq<Byte>)
    ensures |b| == 4 * |ws|
  {
    if ws == [] then [] else WordBytes(ws[0]) + WordsBytes(ws[1..])
  }

  lemma {:induction false} WordsRoundTrip(ws: seq<Uint>)
    ensures Words(WordsBytes(ws)) == ws
  {
    hide Word, WordBytes;
    if ws != [] {
      var b, t := WordBytes(ws[0]), WordsBytes(ws[1..]);
      assert (b + t)[..4] == b && (b + t)[4..] == t;
      WordRoundTrip(ws[0]);
      WordsRoundTrip(ws[1..]);
    }
  }

  function DecodeInode(b: seq<Byte>): Dinode
    requires |b| == ISIZE
  {
    Dinode(Half(b[0..2]), Half(b[2..4]), Half(b[4..6]), Half(b[6..8]), Word(b[8..12]), Words(b[12..]))
  }

  function EncodeInode(x: Dinode): (b: seq<Byte>)
    ensures |b| == ISIZE
  {
    HalfBytes(x.typ) + HalfBytes(x.major) + HalfBytes(x.minor) + HalfBytes(x.nlink) + WordBytes(x.size)
    + WordsBytes(x.addrs)
  }

  lemma InodeRoundTrip(x: Dinode)
    ensures DecodeInode(EncodeInode(x)) == x
  {
    hide Half, Word, WordBytes, Words, WordsBytes;
    var b := EncodeInode(x);
    assert b[0..2] == HalfBytes(x.typ) && b[2..4] == HalfBytes(x.major) && b[4..6] == HalfBytes(x.minor);
    assert b[6..8] == HalfBytes(x.nlink) && b[8..12] == WordBytes(x.size) && b[12..] == WordsBytes(x.addrs);
    WordRoundTrip(x.size);
    WordsRoundTrip(x.addrs);
  }

  /** Where the fields of struct dinode are. */
  lemma InodeFormat(x: Dinode, k: nat)
    requires k <= NDIRECT
    ensures var b := EncodeInode(x);
            && b[0..2] == HalfBytes(x.typ) && b[2..4] == HalfBytes(x.major) && b[4..6] == HalfBytes(x.minor)
            && b[6..8] == HalfBytes(x.nlink) && b[8..12] == WordBytes(x.size) && b[12 + 4 * k..16 + 4 * k] == WordBytes(x.addrs[k])
  {
    hide HalfBytes, WordBytes, WordsBytes;
    var b, a := EncodeInode(x), WordsBytes(x.addrs);
    assert b[12..] == a;
    WordsAt(x.addrs, k);
    assert b[12 + 4 * k..16 + 4 * k] == a[4 * k..4 * k + 4];
  }

  lemma {:induction false} WordsAt(ws: seq<Uint>, k: nat)
    requires k < |ws|
    ensures WordsBytes(ws)[4 * k..4 * k + 4] == WordBytes(ws[k])
  {
    hide WordBytes;
    var b, t := WordBytes(ws[0]), WordsBytes(ws[1..]);
    if k == 0 {
      assert (b + t)[..4] == b;
    } else {
      WordsAt(ws[1..], k - 1);
      assert (b + t)[4 * k..4 * k + 4] == t[4 * (k - 1)..4 * (k - 1) + 4];
    }
  }

  /** Inode slot s of an inode block. */
  function InodeOf(b: Block, s: nat): Dinode
    requires s < IPB
  {
    DecodeInode(b[ISIZE * s..ISIZE * s + ISIZE])
  }

  function PutInode(b: Block, s: nat, x: Dinode): Block
    requires s < IPB
  {
    Splice(b, ISIZE * s, EncodeInode(x))
  }

  lemma InodePut(b: Block, s: nat, x: Dinode, t: nat)
    requires s < IPB && t < IPB
    ensures InodeOf(PutInode(b, s, x), t) == if t == s then x else InodeOf(b, t)
  {
    hide DecodeInode, EncodeInode;
    var r := PutInode(b, s, x);
    if t == s {
      assert r[ISIZE * s..ISIZE * s + ISIZE] == EncodeInode(x);
      InodeRoundTrip(x);
    } else {
      assert r[ISIZE * t..ISIZE * t + ISIZE] == b[ISIZE * t..ISIZE * t + ISIZE];
    }
  }

  // ----- the disk -----

  /** The part of the super block the file system uses. */
  datatype Sb = Sb(size: nat, ninodes: nat, inodestart: nat, bmapstart: nat)

  function Iblock(sb: Sb, i: nat): nat { i / IPB + sb.inodestart }
  function Bblock(sb: Sb, b: nat): nat { b / BPB + sb.bmapstart }

  /** Inodes lie one after the other from inodestart on, and the bits of the blocks from bmapstart on. */
  lemma DiskLayout(sb: Sb, n: nat)
    ensures Iblock(sb, n) * BSIZE + ISIZE * (n % IPB) == sb.inodestart * BSIZE + ISIZE * n
    ensures Bblock(sb, n) * (8 * BSIZE) + n % BPB == sb.bmapstart * (8 * BSIZE) + n
  {
  }

  /** The number of blocks before the data blocks. */
  function Nmeta(sb: Sb): nat { sb.bmapstart + sb.size / BPB + 1 }

  /** Inode blocks, bitmap blocks and data blocks follow each other. */
  predicate SbOk(sb: Sb) {
    && sb.size < 0x1_0000_0000 && 2 <= sb.inodestart && Nmeta(sb) < sb.size
    && sb.bmapstart == sb.inodestart + sb.ninodes / IPB + 1
  }

  predicate DiskOk(sb: Sb, d: Disk) { SbOk(sb) && |d| == sb.size }

  /** Whether the bitmap says that block b is in use. */
  predicate Used(sb: Sb, d: Disk, b: nat)
    requires DiskOk(sb, d) && b < sb.size
  {
    MapBit(d[Bblock(sb, b)], b % BPB)
  }

  function SetUsed(sb: Sb, d: Disk, b: nat, on: bool): Disk
    requires DiskOk(sb, d) && b < sb.size
  {
    d[Bblock(sb, b) := PutMapBit(d[Bblock(sb, b)], b % BPB, on)]
  }

  lemma UsedSet(sb: Sb, d: Disk, b: nat, on: bool, c: nat)
    requires DiskOk(sb, d) && b < sb.size && c < sb.size
    ensures Used(sb, SetUsed(sb, d, b, on), c) == if c == b then on else Used(sb, d, c)
  {
    hide MapBit, PutMapBit;
    if Bblock(sb, b) == Bblock(sb, c) {
      MapBitPut(d[Bblock(sb, b)], b % BPB, on, c % BPB);
    }
  }

  function Ino(sb: Sb, d: Disk, i: nat): Dinode
    requires DiskOk(sb, d) && i < sb.ninodes
  {
    InodeOf(d[Iblock(sb, i)], i % IPB)
  }

  function SetIno(sb: Sb, d: Disk, i: nat, x: Dinode): Disk
    requires DiskOk(sb, d) && i < sb.ninodes
  {
    d[Iblock(sb, i) := PutInode(d[Iblock(sb, i)], i % IPB, x)]
  }

  lemma InoSet(sb: Sb, d: Disk, i: nat, x: Dinode, j: nat)
    requires DiskOk(sb, d) && i < sb.ninodes && j < sb.ninodes
    ensures Ino(sb, SetIno(sb, d, i, x), j) == if j == i then x else Ino(sb, d, j)
  {
    hide InodeOf, PutInode;
    if Iblock(sb, i) == Iblock(sb, j) {
      InodePut(d[Iblock(sb, i)], i % IPB, x, j % IPB);
    }
  }
}
