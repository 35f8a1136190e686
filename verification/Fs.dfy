/**
  Inode contents (kernel/fs.c): block allocation, block maps, and files as byte sequences.

  The ghost map own says what every block in use is for. Being a map it makes ownership
  disjoint; the invariant ties it to the bitmap in both directions and to the block maps of all
  inodes in both directions.
*/
module Fs {
  import opened FsDisk

  const MAXBYTES: nat := 274432       // MAXFILE * BSIZE

  /** What a block in use is for; Loose blocks are allocated but not yet, or no longer, linked. */
  datatype Owner = Meta | Data(i: nat, bn: nat) | Indirect(i: nat) | Loose

  /**
    The disk, the owners, the current inodes (an in-memory inode may be ahead of the disk) and
    what each inode's blocks hold, from byte 0 to the largest file size.
  */
  datatype St = St(d: Disk, own: map<nat, Owner>, I: map<nat, Dinode>, F: map<nat, seq<Byte>>)

  /** The disk block of block bn of a file; 0 if there is none. */
  function Addr(d: Disk, x: Dinode, bn: nat): nat
    requires bn < MAXFILE
  {
    if bn < NDIRECT then x.addrs[bn]
    else if 0 < x.addrs[NDIRECT] < |d| then Entry(d[x.addrs[NDIRECT]], bn - NDIRECT)
    else 0
  }

  /** Byte k of a file; bytes in blocks that do not exist are 0. */
  function ByteAt(d: Disk, x: Dinode, k: nat): Byte
    requires k < MAXBYTES
  {
    var a := Addr(d, x, k / BSIZE);
    if 0 < a < |d| then d[a][k % BSIZE] else 0
  }

  ghost predicate Linked(o: Owner) { o.Data? || o.Indirect? }

  /** Block bn of inode i, if any, is owned as such. */
  ghost predicate LinkOk(d: Disk, own: map<nat, Owner>, x: Dinode, i: nat, bn: nat)
    requires bn < MAXFILE
  {
    var a := Addr(d, x, bn);
    a != 0 ==> a in own && own[a] == Data(i, bn)
  }

  ghost predicate InodeLinks(d: Disk, own: map<nat, Owner>, x: Dinode, i: nat) {
    && (x.addrs[NDIRECT] != 0 ==> x.addrs[NDIRECT] in own && own[x.addrs[NDIRECT]] == Indirect(i))
    && (forall bn: nat {:trigger LinkOk(d, own, x, i, bn)} :: bn < MAXFILE ==> LinkOk(d, own, x, i, bn))
  }

  ghost predicate Holds(d: Disk, x: Dinode, f: seq<Byte>) {
    |f| == MAXBYTES && forall k: nat {:trigger ByteAt(d, x, k)} :: k < MAXBYTES ==> ByteAt(d, x, k) == f[k]
  }

  ghost predicate InodeOk(s: St, i: nat)
    requires i in s.I && i in s.F
  {
    s.I[i].size <= MAXBYTES && InodeLinks(s.d, s.own, s.I[i], i) && Holds(s.d, s.I[i], s.F[i])
  }

  /** Block b is used as its owner says. */
  ghost predicate RoleOk(sb: Sb, s: St, b: nat)
    requires b in s.own
  {
    && b < sb.size
    && match s.own[b]
       case Meta => b < Nmeta(sb)
       case Data(i, bn) => b >= Nmeta(sb) && i in s.I && bn < MAXFILE && Addr(s.d, s.I[i], bn) == b
       case Indirect(i) => b >= Nmeta(sb) && i in s.I && s.I[i].addrs[NDIRECT] == b
       case Loose => b >= Nmeta(sb)
  }

  ghost predicate Shape(sb: Sb, s: St) {
    && DiskOk(sb, s.d)
    && (forall i: nat :: i < sb.ninodes <==> i in s.I)
    && (forall i: nat :: i < sb.ninodes <==> i in s.F)
  }

  /** The bits set in the bitmap are those of the owned blocks. */
  ghost predicate BitsOk(sb: Sb, s: St)
    requires DiskOk(sb, s.d)
  {
    forall b: nat {:trigger Used(sb, s.d, b)} :: b < sb.size ==> (Used(sb, s.d, b) <==> b in s.own)
  }

  ghost predicate RolesOk(sb: Sb, s: St) {
    && (forall b :: b in s.own ==> RoleOk(sb, s, b))
    && (forall b: nat :: b < Nmeta(sb) ==> b in s.own && s.own[b] == Meta)
  }

  ghost predicate InodesOk(s: St)
    requires s.F.Keys == s.I.Keys
  {
    forall i :: i in s.I ==> InodeOk(s, i)
  }

  ghost predicate Inv(sb: Sb, s: St) {
    Shape(sb, s) && BitsOk(sb, s) && RolesOk(sb, s) && s.F.Keys == s.I.Keys && InodesOk(s)
  }

  // ----- framing -----

  /** The step from s to t leaves alone the blocks, the fields and the contents of all inodes not in but. */
  ghost predicate Apart(s: St, t: St, but: set<nat>) {
    && |t.d| == |s.d| && t.I.Keys == s.I.Keys && t.F.Keys == s.F.Keys
    && (forall b :: b in s.own && Linked(s.own[b]) && s.own[b].i !in but ==>
          b in t.own && t.own[b] == s.own[b] && b < |s.d| && t.d[b] == s.d[b])
    && (forall b :: b in t.own && Linked(t.own[b]) && t.own[b].i !in but ==> b in s.own && s.own[b] == t.own[b])
    && (forall i :: i in s.I && i in s.F && i !in but ==> t.I[i] == s.I[i] && t.F[i] == s.F[i])
  }

  /** An inode whose blocks do not change keeps its block map and its contents. */
  lemma InodeKept(s: St, t: St, but: set<nat>, i: nat)
    requires Apart(s, t, but) && i in s.I && i in s.F && i !in but && InodeOk(s, i)
    ensures InodeOk(t, i)
    ensures forall bn: nat :: bn < MAXFILE ==> Addr(t.d, t.I[i], bn) == Addr(s.d, s.I[i], bn)
  {
    var x := s.I[i];
    forall bn: nat | bn < MAXFILE
      ensures Addr(t.d, x, bn) == Addr(s.d, x, bn) && LinkOk(t.d, t.own, x, i, bn)
    {
      assert LinkOk(s.d, s.own, x, i, bn);
    }
    forall k: nat | k < MAXBYTES ensures ByteAt(t.d, x, k) == s.F[i][k] {
      assert LinkOk(s.d, s.own, x, i, k / BSIZE);
      assert ByteAt(s.d, x, k) == s.F[i][k];
    }
  }

  /** All other inodes and the roles of all other blocks are kept. */
  lemma OthersKept(sb: Sb, s: St, t: St, but: set<nat>)
    requires Inv(sb, s) && Apart(s, t, but)
    ensures forall i :: i in t.I && i !in but ==> InodeOk(t, i)
    ensures forall b :: b in t.own && Linked(t.own[b]) && t.own[b].i !in but ==> RoleOk(sb, t, b)
  {
    forall i | i in t.I && i !in but ensures InodeOk(t, i) { InodeKept(s, t, but, i); }
    forall b | b in t.own && Linked(t.own[b]) && t.own[b].i !in but ensures RoleOk(sb, t, b) {
      assert RoleOk(sb, s, b);
      InodeKept(s, t, but, s.own[b].i);
    }
  }

  /** The roles that OthersKept does not cover. */
  ghost predicate OwnRoles(sb: Sb, t: St, but: set<nat>) {
    && (forall b :: b in t.own && (Linked(t.own[b]) ==> t.own[b].i in but) ==> RoleOk(sb, t, b))
    && (forall b: nat :: b < Nmeta(sb) ==> b in t.own && t.own[b] == Meta)
  }

  /** A step that touches only the inodes in but keeps the invariant if it does so for these. */
  lemma StepOk(sb: Sb, s: St, t: St, but: set<nat>)
    requires Inv(sb, s) && Apart(s, t, but) && BitsOk(sb, t) && OwnRoles(sb, t, but)
    requires forall i :: i in t.I && i in but ==> InodeOk(t, i)
    ensures Inv(sb, t)
  {
    hide BitsOk, InodeOk, RoleOk;
    OthersKept(sb, s, t, but);
  }

  /** Owned blocks are on the disk. */
  lemma OwnedInRange(sb: Sb, s: St)
    requires Inv(sb, s)
    ensures forall c :: c in s.own ==> c < |s.d|
  {
    hide BitsOk, InodesOk;
    forall c | c in s.own ensures c < |s.d| { assert RoleOk(sb, s, c); }
  }

  /** Writing a block outside the metadata changes no bit. */
  lemma BitsKept(sb: Sb, s: St, t: St)
    requires DiskOk(sb, s.d) && BitsOk(sb, s) && |t.d| == |s.d| && t.own.Keys == s.own.Keys
    requires forall b: nat :: b < Nmeta(sb) ==> t.d[b] == s.d[b]
    ensures BitsOk(sb, t)
  {
    forall b: nat | b < sb.size ensures Used(sb, t.d, b) <==> b in t.own {
      assert Bblock(sb, b) < Nmeta(sb);
      assert Used(sb, s.d, b) <==> b in s.own;
    }
  }

  // ----- allocation -----

  /** Block b is marked in use and zeroed. */
  function Allocated(sb: Sb, d: Disk, b: nat): Disk
    requires DiskOk(sb, d) && b < sb.size
  {
    SetUsed(sb, d, b, true)[b := Zeros()]
  }

  lemma AllocateBits(sb: Sb, s: St, b: nat)
    requires Shape(sb, s) && BitsOk(sb, s) && Nmeta(sb) <= b < sb.size
    ensures BitsOk(sb, s.(d := Allocated(sb, s.d, b), own := s.own[b := Loose]))
  {
    hide PutMapBit, MapBit, Used;
    var t := s.(d := Allocated(sb, s.d, b), own := s.own[b := Loose]);
    forall c: nat | c < sb.size ensures Used(sb, t.d, c) <==> c in t.own {
      assert Used(sb, s.d, c) <==> c in s.own;
      AllocatedBit(sb, s.d, b, c);
    }
  }

  lemma AllocatedBit(sb: Sb, d: Disk, b: nat, c: nat)
    requires DiskOk(sb, d) && Nmeta(sb) <= b < sb.size && c < sb.size
    ensures Used(sb, Allocated(sb, d, b), c) <==> c == b || Used(sb, d, c)
  {
    hide MapBit, PutMapBit;
    UsedSet(sb, d, b, true, c);
    assert Bblock(sb, c) != b;
  }

  /** Allocating a free block keeps the invariant and every file. */
  lemma AllocateOk(sb: Sb, s: St, b: nat)
    requires Inv(sb, s) && b < sb.size && b !in s.own
    ensures Inv(sb, s.(d := Allocated(sb, s.d, b), own := s.own[b := Loose]))
  {
    hide BitsOk, InodeOk, Nmeta;
    var t := s.(d := Allocated(sb, s.d, b), own := s.own[b := Loose]);
    assert Nmeta(sb) <= b;
    AllocateBits(sb, s, b);
    AllocateApart(sb, s, b);
    OthersKept(sb, s, t, {});
    forall c | c in t.own ensures RoleOk(sb, t, c) { assert c in s.own ==> RoleOk(sb, s, c); }
  }

  lemma AllocateApart(sb: Sb, s: St, b: nat)
    requires Inv(sb, s) && b < sb.size && b !in s.own
    ensures Apart(s, s.(d := Allocated(sb, s.d, b), own := s.own[b := Loose]), {})
  {
    hide BitsOk, InodesOk, MapBit, PutMapBit;
    var t := s.(d := Allocated(sb, s.d, b), own := s.own[b := Loose]);
    forall c | c in s.own && Linked(s.own[c]) ensures c < |s.d| && t.d[c] == s.d[c] {
      assert RoleOk(sb, s, c);
      assert Bblock(sb, b) < Nmeta(sb);
    }
  }

  lemma ReleaseBits(sb: Sb, s: St, b: nat)
    requires Shape(sb, s) && BitsOk(sb, s) && Nmeta(sb) <= b < sb.size
    ensures BitsOk(sb, s.(d := SetUsed(sb, s.d, b, false), own := s.own - {b}))
  {
    hide PutMapBit, MapBit, Used;
    var t := s.(d := SetUsed(sb, s.d, b, false), own := s.own - {b});
    forall c: nat | c < sb.size ensures Used(sb, t.d, c) <==> c in t.own {
      assert Used(sb, s.d, c) <==> c in s.own;
      UsedSet(sb, s.d, b, false, c);
    }
  }

  /** Freeing a block that nothing links to keeps the invariant and every file. */
  lemma ReleaseOk(sb: Sb, s: St, b: nat)
    requires Inv(sb, s) && b in s.own && s.own[b] == Loose
    ensures b < sb.size && Used(sb, s.d, b)
    ensures Inv(sb, s.(d := SetUsed(sb, s.d, b, false), own := s.own - {b}))
  {
    hide InodeOk, MapBit, PutMapBit;
    assert RoleOk(sb, s, b);
    assert Used(sb, s.d, b);
    var t := s.(d := SetUsed(sb, s.d, b, false), own := s.own - {b});
    ReleaseBits(sb, s, b);
    assert Apart(s, t, {}) by {
      forall c | c in s.own && Linked(s.own[c]) ensures c < |s.d| && t.d[c] == s.d[c] {
        assert RoleOk(sb, s, c);
        assert Bblock(sb, b) < Nmeta(sb);
      }
    }
    OthersKept(sb, s, t, {});
    forall c | c in t.own ensures RoleOk(sb, t, c) { assert RoleOk(sb, s, c); }
  }

  // ----- linking a block into an inode -----

  ghost function WithAddr(s: St, i: nat, k: nat, b: Uint, o: Owner): St
    requires i in s.I && k <= NDIRECT
  {
    s.(I := s.I[i := s.I[i].(addrs := s.I[i].addrs[k := b])], own := s.own[b := o])
  }

  /** A zeroed block becomes a direct block that the file did not have; the contents stay. */
  lemma LinkDirect(sb: Sb, s: St, i: nat, bn: nat, b: Uint)
    requires Inv(sb, s) && i in s.I && bn < NDIRECT && s.I[i].addrs[bn] == 0
    requires b in s.own && s.own[b] == Loose && b < |s.d| && s.d[b] == Zeros()
    ensures Inv(sb, WithAddr(s, i, bn, b, Data(i, bn)))
  {
    hide BitsOk, InodeOk;
    var t := WithAddr(s, i, bn, b, Data(i, bn));
    OwnedInRange(sb, s);
    BitsKept(sb, s, t);
    LinkDirectInode(sb, s, i, bn, b);
    assert OwnRoles(sb, t, {i}) by { forall c | c in t.own ensures RoleOk(sb, t, c) { assert RoleOk(sb, s, c); } }
    StepOk(sb, s, t, {i});
  }

  lemma LinkDirectInode(sb: Sb, s: St, i: nat, bn: nat, b: Uint)
    requires Inv(sb, s) && i in s.I && bn < NDIRECT && s.I[i].addrs[bn] == 0
    requires b in s.own && s.own[b] == Loose && b < |s.d| && s.d[b] == Zeros()
    ensures InodeOk(WithAddr(s, i, bn, b, Data(i, bn)), i)
  {
    hide BitsOk;
    var t := WithAddr(s, i, bn, b, Data(i, bn));
    var x, y := s.I[i], t.I[i];
    forall n: nat | n < MAXFILE ensures LinkOk(t.d, t.own, y, i, n) { assert LinkOk(s.d, s.own, x, i, n); }
    forall k: nat | k < MAXBYTES ensures ByteAt(t.d, y, k) == s.F[i][k] { assert ByteAt(s.d, x, k) == s.F[i][k]; }
  }

  /** A zeroed block becomes the indirect block that the file did not have; the contents stay. */
  lemma LinkIndirect(sb: Sb, s: St, i: nat, b: Uint)
    requires Inv(sb, s) && i in s.I && s.I[i].addrs[NDIRECT] == 0
    requires b in s.own && s.own[b] == Loose && b < |s.d| && s.d[b] == Zeros()
    ensures Inv(sb, WithAddr(s, i, NDIRECT, b, Indirect(i)))
  {
    hide BitsOk, InodeOk;
    var t := WithAddr(s, i, NDIRECT, b, Indirect(i));
    OwnedInRange(sb, s);
    BitsKept(sb, s, t);
    LinkIndirectInode(sb, s, i, b);
    assert OwnRoles(sb, t, {i}) by { forall c | c in t.own ensures RoleOk(sb, t, c) { assert RoleOk(sb, s, c); } }
    StepOk(sb, s, t, {i});
  }

  lemma LinkIndirectInode(sb: Sb, s: St, i: nat, b: Uint)
    requires Inv(sb, s) && i in s.I && s.I[i].addrs[NDIRECT] == 0
    requires b in s.own && s.own[b] == Loose && b < |s.d| && s.d[b] == Zeros()
    ensures InodeOk(WithAddr(s, i, NDIRECT, b, Indirect(i)), i)
    ensures forall n: nat :: n < MAXFILE ==>
              Addr(s.d, WithAddr(s, i, NDIRECT, b, Indirect(i)).I[i], n) == Addr(s.d, s.I[i], n)
  {
    hide BitsOk, Entry;
    var t := WithAddr(s, i, NDIRECT, b, Indirect(i));
    var x, y := s.I[i], t.I[i];
    forall n: nat | n < MAXFILE ensures Addr(t.d, y, n) == Addr(s.d, x, n) && LinkOk(t.d, t.own, y, i, n) {
      if n >= NDIRECT { EntryZero(n - NDIRECT); }
      assert LinkOk(s.d, s.own, x, i, n);
    }
    forall k: nat | k < MAXBYTES ensures ByteAt(t.d, y, k) == s.F[i][k] { assert ByteAt(s.d, x, k) == s.F[i][k]; }
  }

  ghost function WithEntry(s: St, i: nat, bn: nat, b: Uint): St
    requires i in s.I && NDIRECT <= bn < MAXFILE && s.I[i].addrs[NDIRECT] < |s.d|
  {
    var ind := s.I[i].addrs[NDIRECT];
    s.(d := s.d[ind := PutEntry(s.d[ind], bn - NDIRECT, b)], own := s.own[b := Data(i, bn)])
  }

  /** A zeroed block becomes an indirect data block that the file did not have; the contents stay. */
  lemma LinkEntry(sb: Sb, s: St, i: nat, bn: nat, b: Uint)
    requires Inv(sb, s) && i in s.I && NDIRECT <= bn < MAXFILE
    requires 0 < s.I[i].addrs[NDIRECT] < |s.d| && Addr(s.d, s.I[i], bn) == 0
    requires b in s.own && s.own[b] == Loose && b < |s.d| && s.d[b] == Zeros()
    ensures Inv(sb, WithEntry(s, i, bn, b)) && Addr(WithEntry(s, i, bn, b).d, s.I[i], bn) == b
  {
    hide BitsOk, MapBit, Entry, PutEntry;
    var t, ind := WithEntry(s, i, bn, b), s.I[i].addrs[NDIRECT];
    assert InodeOk(s, i) && RoleOk(sb, s, ind);
    BitsKept(sb, s, t);
    assert Apart(s, t, {i}) by {
      forall c | c in s.own && Linked(s.own[c]) && s.own[c].i != i ensures c < |s.d| && t.d[c] == s.d[c] {
        assert RoleOk(sb, s, c);
      }
    }
    OthersKept(sb, s, t, {i});
    LinkEntryInode(sb, s, i, bn, b);
    forall c | c in t.own ensures RoleOk(sb, t, c) { assert RoleOk(sb, s, c); }
  }

  lemma LinkEntryInode(sb: Sb, s: St, i: nat, bn: nat, b: Uint)
    requires Inv(sb, s) && i in s.I && NDIRECT <= bn < MAXFILE
    requires 0 < s.I[i].addrs[NDIRECT] < |s.d| && Addr(s.d, s.I[i], bn) == 0
    requires b in s.own && s.own[b] == Loose && b < |s.d| && s.d[b] == Zeros()
    ensures InodeOk(WithEntry(s, i, bn, b), i)
    ensures forall n: nat :: n < MAXFILE ==>
              Addr(WithEntry(s, i, bn, b).d, s.I[i], n) == if n == bn then b else Addr(s.d, s.I[i], n)
  {
    hide BitsOk, Entry, PutEntry;
    var t, ind, x := WithEntry(s, i, bn, b), s.I[i].addrs[NDIRECT], s.I[i];
    assert InodeOk(s, i);
    forall n: nat | n < MAXFILE
      ensures Addr(t.d, x, n) == if n == bn then b else Addr(s.d, x, n)
      ensures LinkOk(t.d, t.own, x, i, n)
    {
      if n >= NDIRECT { EntryPut(s.d[ind], bn - NDIRECT, b, n - NDIRECT); }
      assert LinkOk(s.d, s.own, x, i, n);
    }
    forall k: nat | k < MAXBYTES ensures ByteAt(t.d, x, k) == s.F[i][k] {
      assert ByteAt(s.d, x, k) == s.F[i][k];
      assert LinkOk(s.d, s.own, x, i, k / BSIZE);
    }
  }

  // ----- writing data -----

  ghost function WithData(s: St, i: nat, bn: nat, b: nat, blk: Block): St
    requires b < |s.d| && i in s.F && |s.F[i]| == MAXBYTES && bn < MAXFILE
  {
    s.(d := s.d[b := blk], F := s.F[i := Splice(s.F[i], bn * BSIZE, blk)])
  }

  /** Writing a file's block changes that part of that file and nothing else. */
  lemma WriteData(sb: Sb, s: St, i: nat, bn: nat, b: nat, blk: Block)
    requires Inv(sb, s) && i in s.I && bn < MAXFILE && b != 0 && Addr(s.d, s.I[i], bn) == b
    ensures b < |s.d| && |s.F[i]| == MAXBYTES && Inv(sb, WithData(s, i, bn, b, blk))
  {
    hide BitsOk, MapBit, Entry, Splice;
    assert InodeOk(s, i) && LinkOk(s.d, s.own, s.I[i], i, bn) && RoleOk(sb, s, b);
    var t := WithData(s, i, bn, b, blk);
    BitsKept(sb, s, t);
    assert Apart(s, t, {i}) by {
      forall c | c in s.own && Linked(s.own[c]) && s.own[c].i != i ensures c < |s.d| && t.d[c] == s.d[c] {
        assert RoleOk(sb, s, c);
      }
    }
    OthersKept(sb, s, t, {i});
    WriteDataInode(sb, s, i, bn, b, blk);
    forall c | c in t.own ensures RoleOk(sb, t, c) { assert RoleOk(sb, s, c); }
  }

  lemma WriteDataInode(sb: Sb, s: St, i: nat, bn: nat, b: nat, blk: Block)
    requires Inv(sb, s) && i in s.I && bn < MAXFILE && b != 0 && Addr(s.d, s.I[i], bn) == b
    requires b < |s.d| && |s.F[i]| == MAXBYTES
    ensures InodeOk(WithData(s, i, bn, b, blk), i)
    ensures forall n: nat :: n < MAXFILE ==> Addr(WithData(s, i, bn, b, blk).d, s.I[i], n) == Addr(s.d, s.I[i], n)
  {
    hide BitsOk, Entry;
    var t, x := WithData(s, i, bn, b, blk), s.I[i];
    assert InodeOk(s, i) && LinkOk(s.d, s.own, x, i, bn);
    forall n: nat | n < MAXFILE ensures Addr(t.d, x, n) == Addr(s.d, x, n) && LinkOk(t.d, t.own, x, i, n) {
      assert LinkOk(s.d, s.own, x, i, n);
    }
    forall k: nat | k < MAXBYTES ensures ByteAt(t.d, x, k) == t.F[i][k] {
      assert ByteAt(s.d, x, k) == s.F[i][k];
      assert LinkOk(s.d, s.own, x, i, k / BSIZE);
      assert k / BSIZE == bn <==> bn * BSIZE <= k < bn * BSIZE + BSIZE;
    }
  }

  // ----- inodes on disk -----

  /** The disk holds the current inodes, except those in but. */
  ghost predicate Synced(sb: Sb, s: St, but: set<nat>) {
    Shape(sb, s) && forall i: nat {:trigger Ino(sb, s.d, i)} :: i < sb.ninodes && i !in but ==> Ino(sb, s.d, i) == s.I[i]
  }

  /** Writing an inode back keeps the invariant and every file. */
  lemma SyncOk(sb: Sb, s: St, i: nat)
    requires Inv(sb, s) && i in s.I
    ensures Inv(sb, s.(d := SetIno(sb, s.d, i, s.I[i])))
  {
    hide BitsOk, InodeOk, PutInode;
    var t := s.(d := SetIno(sb, s.d, i, s.I[i]));
    assert Iblock(sb, i) < Nmeta(sb);
    assert Apart(s, t, {}) by {
      forall c | c in s.own && Linked(s.own[c]) ensures c < |s.d| && t.d[c] == s.d[c] { assert RoleOk(sb, s, c); }
    }
    OthersKept(sb, s, t, {});
    forall c | c in t.own ensures RoleOk(sb, t, c) { assert RoleOk(sb, s, c); }
    SyncBits(sb, s, i);
  }

  lemma SyncBits(sb: Sb, s: St, i: nat)
    requires Shape(sb, s) && BitsOk(sb, s) && i in s.I
    ensures BitsOk(sb, s.(d := SetIno(sb, s.d, i, s.I[i])))
  {
    hide PutInode, MapBit;
    var t := s.(d := SetIno(sb, s.d, i, s.I[i]));
    forall b: nat | b < sb.size ensures Used(sb, t.d, b) <==> b in t.own { assert Used(sb, s.d, b) <==> b in s.own; }
  }

  lemma SyncDone(sb: Sb, s: St, i: nat)
    requires Synced(sb, s, {i}) && i in s.I
    ensures Synced(sb, s.(d := SetIno(sb, s.d, i, s.I[i])), {})
  {
    hide PutInode, Ino;
    var t := s.(d := SetIno(sb, s.d, i, s.I[i]));
    forall j: nat | j < sb.ninodes ensures Ino(sb, t.d, j) == t.I[j] { InoSet(sb, s.d, i, s.I[i], j); }
  }

  /** Inodes on disk depend on the inode blocks only. */
  lemma SyncedKept(sb: Sb, s: St, t: St, but: set<nat>)
    requires Synced(sb, s, but) && Shape(sb, t)
    requires forall b: nat :: sb.inodestart <= b < sb.bmapstart ==> t.d[b] == s.d[b]
    requires forall i :: i in s.I && i !in but ==> t.I[i] == s.I[i]
    ensures Synced(sb, t, but)
  {
    hide InodeOf;
    forall i: nat | i < sb.ninodes && i !in but ensures Ino(sb, t.d, i) == t.I[i] {
      assert Ino(sb, s.d, i) == s.I[i];
    }
  }

  /** Changing an inode's other fields. */
  lemma FieldsOk(sb: Sb, s: St, i: nat, x: Dinode)
    requires Inv(sb, s) && i in s.I && x.addrs == s.I[i].addrs && x.size <= MAXBYTES
    ensures Inv(sb, s.(I := s.I[i := x]))
  {
    hide BitsOk, InodeOk;
    var t := s.(I := s.I[i := x]);
    OwnedInRange(sb, s);
    BitsKept(sb, s, t);
    FieldsInode(s, i, x);
    assert OwnRoles(sb, t, {i}) by { forall c | c in t.own ensures RoleOk(sb, t, c) { assert RoleOk(sb, s, c); } }
    StepOk(sb, s, t, {i});
  }

  lemma FieldsInode(s: St, i: nat, x: Dinode)
    requires i in s.I && i in s.F && InodeOk(s, i) && x.addrs == s.I[i].addrs && x.size <= MAXBYTES
    ensures InodeOk(s.(I := s.I[i := x]), i)
  {
    forall n: nat | n < MAXFILE ensures LinkOk(s.d, s.own, x, i, n) { assert LinkOk(s.d, s.own, s.I[i], i, n); }
    forall k: nat | k < MAXBYTES ensures ByteAt(s.d, x, k) == s.F[i][k] { assert ByteAt(s.d, s.I[i], k) == s.F[i][k]; }
  }

  // ----- discarding an inode's contents -----

  ghost predicate OwnedBy(o: Owner, i: nat) { Linked(o) && o.i == i }

  /** The order in which itrunc() frees the blocks of an inode. */
  ghost function Rank(o: Owner): nat
    requires Linked(o)
  {
    match o
    case Data(_, bn) => bn
    case Indirect(_) => MAXFILE
  }

  /** The owners when inode i has lost all its blocks and those of rank below n are free. */
  ghost function Trimmed(own: map<nat, Owner>, i: nat, n: nat): map<nat, Owner> {
    map b | b in own && !(OwnedBy(own[b], i) && Rank(own[b]) < n) :: if OwnedBy(own[b], i) then Loose else own[b]
  }

  function NoAddrs(): (a: seq<Uint>)
    ensures |a| == NDIRECT + 1 && forall k :: 0 <= k <= NDIRECT ==> a[k] == 0
  {
    seq(NDIRECT + 1, _ => 0)
  }

  function Blank(): (f: seq<Byte>)
    ensures |f| == MAXBYTES && forall k :: 0 <= k < MAXBYTES ==> f[k] == 0
  {
    seq(MAXBYTES, _ => 0)
  }

  ghost function Detached(s: St, i: nat): St
    requires i in s.I
  {
    St(s.d, Trimmed(s.own, i, 0), s.I[i := s.I[i].(addrs := NoAddrs(), size := 0)], s.F[i := Blank()])
  }

  /** Once an inode has no addresses its blocks are loose, and no other file is affected. */
  lemma DetachOk(sb: Sb, s: St, i: nat)
    requires Inv(sb, s) && i in s.I
    ensures Inv(sb, Detached(s, i))
  {
    hide BitsOk, InodeOk, RoleOk;
    var t := Detached(s, i);
    OwnedInRange(sb, s);
    BitsKept(sb, s, t);
    DetachInode(s, i);
    DetachRoles(sb, s, i);
    StepOk(sb, s, t, {i});
  }

  lemma DetachRoles(sb: Sb, s: St, i: nat)
    requires Inv(sb, s) && i in s.I
    ensures OwnRoles(sb, Detached(s, i), {i})
  {
    hide BitsOk, InodesOk;
    var t := Detached(s, i);
    forall c | c in t.own && (Linked(t.own[c]) ==> t.own[c].i == i) ensures RoleOk(sb, t, c) {
      assert RoleOk(sb, s, c);
    }
  }

  lemma DetachInode(s: St, i: nat)
    requires i in s.I && i in s.F
    ensures InodeOk(Detached(s, i), i)
  {
  }
}
