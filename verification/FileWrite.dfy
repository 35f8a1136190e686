/**
  filewrite() (kernel/file.c): a write is cut into transactions, each of which must fit in the
  log space that begin_op() reserves for it.
*/
module FileWrite {
  import opened FsDisk
  import opened Fs
  import opened FsOps
  import opened Param

  const MAXCHUNK: nat := 3072         // ((MAXOPBLOCKS - 1 - 1 - 2) / 2) * BSIZE

  class OpenFile {
    const ip: Inode
    const writable: bool
    var off: Uint

    constructor (ip: Inode, writable: bool, off: Uint)
      ensures this.ip == ip && this.writable == writable && this.off == off
    {
      this.ip, this.writable, this.off := ip, writable, off;
    }
  }

  /** A file whose blocks up to its size all exist. */
  ghost predicate NoHoles(d: Disk, x: Dinode) { Covered(d, x, x.size) }

  // ----- how much a write logs -----

  /** The most blocks a write of n bytes at off can log: data, bitmap, indirect, its bitmap, inode. */
  function OpBlocks(off: nat, n: nat, firstMapped: bool): int {
    Touched(off, n) + (Touched(off, n) - (if n > 0 && firstMapped then 1 else 0)) + 2 + 1
  }

  /**
    The worst case fits the budget exactly when the first block need not be allocated, or the chunk
    touches at most three blocks.
  */
  lemma BudgetExact(off: nat, n: nat, first: bool)
    requires n <= MAXCHUNK
    ensures OpBlocks(off, n, first) <= MAXOPBLOCKS <==> first || off % BSIZE + n <= MAXCHUNK
  {
    assert off == off / BSIZE * BSIZE + off % BSIZE;
    if n > 0 {
      var r := off % BSIZE;
      assert (off + n - 1) / BSIZE == off / BSIZE + (r + n - 1) / BSIZE;
    }
  }

  ghost predicate FirstMapped(d: Disk, x: Dinode, off: nat) { off / BSIZE < MAXFILE && Addr(d, x, off / BSIZE) != 0 }

  /** Without holes the block of an unaligned offset exists already. */
  lemma UnalignedMapped(d: Disk, x: Dinode, off: nat)
    requires NoHoles(d, x) && off <= x.size <= MAXBYTES && off % BSIZE != 0
    ensures FirstMapped(d, x, off)
  {
    hide Addr;
    assert off / BSIZE * BSIZE < off;
  }

  /** The parts of what a write to the blocks lo up to hi logs. */
  ghost function DataPart(s: St, i: nat, lo: nat, hi: nat): (r: set<nat>)
    requires i in s.I && lo <= hi <= MAXFILE
  {
    if lo == hi then {} else DataPart(s, i, lo, hi - 1) + {Addr(s.d, s.I[i], hi - 1)}
  }

  ghost function MapPart(sb: Sb, s0: St, s: St, i: nat, lo: nat, hi: nat): (r: set<nat>)
    requires i in s0.I && i in s.I && lo <= hi <= MAXFILE
  {
    if lo == hi then {}
    else
      MapPart(sb, s0, s, i, lo, hi - 1)
      + (if Addr(s0.d, s0.I[i], hi - 1) == 0 then {Bblock(sb, Addr(s.d, s.I[i], hi - 1))} else {})
  }

  /** Whether a block beyond the direct ones is new. */
  ghost predicate NewIndirect(s0: St, i: nat, lo: nat, hi: nat)
    requires i in s0.I && hi <= MAXFILE
  {
    exists n: nat :: lo <= n < hi && NDIRECT <= n && Addr(s0.d, s0.I[i], n) == 0
  }

  ghost function IndPart(sb: Sb, s0: St, s: St, i: nat, lo: nat, hi: nat): set<nat>
    requires i in s0.I && i in s.I && hi <= MAXFILE
  {
    if NewIndirect(s0, i, lo, hi) then IndBlocks(sb, s0.I[i], s.I[i]) else {}
  }

  lemma {:induction false} LogsAre(sb: Sb, s0: St, s: St, i: nat, lo: nat, hi: nat)
    requires i in s0.I && i in s.I && lo <= hi <= MAXFILE
    ensures Logs(sb, s0, s, i, lo, hi) == DataPart(s, i, lo, hi) + MapPart(sb, s0, s, i, lo, hi) + IndPart(sb, s0, s, i, lo, hi)
    decreases hi - lo
  {
    hide Addr, IndBlocks;
    if lo < hi {
      LogsAre(sb, s0, s, i, lo, hi - 1);
      NewIndirectStep(s0, i, lo, hi);
    }
  }

  lemma NewIndirectStep(s0: St, i: nat, lo: nat, hi: nat)
    requires i in s0.I && lo < hi <= MAXFILE
    ensures NewIndirect(s0, i, lo, hi) <==> NewIndirect(s0, i, lo, hi - 1) || (NDIRECT <= hi - 1 && Addr(s0.d, s0.I[i], hi - 1) == 0)
  {
    hide Addr;
    if NDIRECT <= hi - 1 && Addr(s0.d, s0.I[i], hi - 1) == 0 {
      var n: nat := hi - 1;
      assert lo <= n < hi && NDIRECT <= n && Addr(s0.d, s0.I[i], n) == 0;
    }
  }

  /** The first block's bitmap block is needed only if the first block is new. */
  lemma {:induction false} PartSizes(sb: Sb, s0: St, s: St, i: nat, lo: nat, hi: nat)
    requires i in s0.I && i in s.I && lo <= hi <= MAXFILE
    ensures |DataPart(s, i, lo, hi)| <= hi - lo && |IndPart(sb, s0, s, i, lo, hi)| <= 2
    ensures |MapPart(sb, s0, s, i, lo, hi)| <= hi - lo
    ensures lo < hi && Addr(s0.d, s0.I[i], lo) != 0 ==> |MapPart(sb, s0, s, i, lo, hi)| <= hi - lo - 1
    decreases hi - lo
  {
    hide Addr, Bblock;
    if lo < hi { PartSizes(sb, s0, s, i, lo, hi - 1); }
  }

  /** A chunk whose first block exists, or which touches at most three blocks, stays within the budget on every disk. */
  lemma OpFits(sb: Sb, s0: St, s: St, i: nat, off: nat, n: nat, l: set<nat>, ib: nat)
    requires i in s0.I && i in s.I && 0 < n <= MAXCHUNK && (FirstMapped(s0.d, s0.I[i], off) || off % BSIZE + n <= MAXCHUNK)
    requires off / BSIZE + Touched(off, n) <= MAXFILE
    requires l == {} + {ib} + Logs(sb, s0, s, i, off / BSIZE, off / BSIZE + Touched(off, n))
    ensures |l| <= MAXOPBLOCKS
  {
    hide Logs, DataPart, MapPart, IndPart, Addr;
    var lo, hi := off / BSIZE, off / BSIZE + Touched(off, n);
    LogsAre(sb, s0, s, i, lo, hi);
    PartSizes(sb, s0, s, i, lo, hi);
    BudgetExact(off, n, FirstMapped(s0.d, s0.I[i], off));
  }

  // ----- one transaction -----

  /** A consistent file system with inode i. */
  ghost predicate Ready(sb: Sb, s: St, i: nat) {
    Consistent(sb, s) && i in s.I
  }

  /** What a write of n bytes at off logs and takes: the inode block and what its blocks need, lowest free blocks first. */
  ghost predicate Exactly(sb: Sb, s0: St, s: St, i: nat, off: nat, n: nat, l: set<nat>) {
    && i in s0.I && i in s.I && off / BSIZE + Touched(off, n) <= MAXFILE && KeepsLinks(s0.own, s.own)
    && l == {} + {Iblock(sb, i)} + Logs(sb, s0, s, i, off / BSIZE, off / BSIZE + Touched(off, n))
    && Paid(sb, s0, s, {}, l, i, off / BSIZE, off / BSIZE + Touched(off, n))
    && Spots(s0, s, i, off / BSIZE, off / BSIZE + Touched(off, n))
  }

  /** A write of n bytes at off is refused, or there are as many free blocks as it takes. */
  ghost predicate Affords(sb: Sb, s: St, i: nat, off: nat, n: nat) {
    && i in s.I
    && (!Rejected(off, n, s.I[i].size) ==>
          && off / BSIZE + Touched(off, n) <= MAXFILE
          && |s.own| + Need(s, i, off / BSIZE, off / BSIZE + Touched(off, n)) <= sb.size)
  }

  /** From begin_op() to end_op(): one chunk, which logs at most MAXOPBLOCKS blocks. */
  method WriteOp(fs: FileSys, ip: Inode, off: Uint, chunk: seq<Byte>) returns (ok: bool, r: int)
    requires Ready(fs.sb, fs.S(), ip.inum) && ip.inum in fs.I && fs.I[ip.inum] == ip.f && 0 < |chunk| <= MAXCHUNK
    modifies fs, ip
    ensures ok ==> Ready(fs.sb, fs.S(), ip.inum) && ip.inum in fs.I && fs.I[ip.inum] == ip.f && |fs.logged| <= MAXOPBLOCKS
    ensures ok && old(Rejected(off, |chunk|, ip.f.size)) ==> r == -1 && fs.S() == old(fs.S()) && fs.logged == {}
    ensures ok && !old(Rejected(off, |chunk|, ip.f.size)) ==>
              r == |chunk| && off + |chunk| <= MAXBYTES && Written(old(fs.S()), fs.S(), ip.inum, off, chunk)
    ensures ok && !old(Rejected(off, |chunk|, ip.f.size)) ==>
              Exactly(fs.sb, old(fs.S()), fs.S(), ip.inum, off, |chunk|, fs.logged)
    ensures ok <==> Affords(fs.sb, old(fs.S()), ip.inum, off, |chunk|)
  {
    hide Inv, Synced, NoLoose, KeepsLinks, Covered, Written, Full, Logs, Touched, Iblock, Addr, Paid, Spots, Need;
    fs.logged := {};
    ghost var x0 := ip.f;
    ghost var s0 := fs.S();
    SyncedButOne(fs.sb, s0, ip.inum);
    ok, r := fs.Writei(ip, off, chunk);
    if ok && !Rejected(off, |chunk|, x0.size) {
      InodesSame(s0, fs.S(), ip.inum, off, chunk);
      WriteConsistent(fs.sb, s0, fs.S(), ip.inum);
      if off % BSIZE != 0 { UnalignedMapped(s0.d, s0.I[ip.inum], off); }
      OpFits(fs.sb, s0, fs.S(), ip.inum, off, |chunk|, fs.logged, Iblock(fs.sb, ip.inum));
    }
  }

  lemma SyncedButOne(sb: Sb, s: St, i: nat)
    requires Inv(sb, s) && Synced(sb, s, {}) && i in s.I
    ensures Synced(sb, s, {i}) && s.I[i].size <= MAXBYTES
  {
    hide BitsOk, RolesOk, Ino, InodeLinks, Holds;
    assert InodeOk(s, i);
  }

  lemma InodesSame(s: St, t: St, i: nat, off: nat, src: seq<Byte>)
    requires Written(s, t, i, off, src)
    ensures i in t.I && t.I == s.I[i := t.I[i]]
  {
    hide File;
  }

  // ----- the whole write -----

  lemma WrittenTwice(s0: St, s1: St, s2: St, i: nat, off: nat, a: seq<Byte>, b: seq<Byte>)
    requires Written(s0, s1, i, off, a) && Written(s1, s2, i, off + |a|, b)
    ensures Written(s0, s2, i, off, a + b)
  {
    hide File;
    assert Overwrite(Overwrite(File(s0, i), off, a), off + |a|, b) == Overwrite(File(s0, i), off, a + b);
  }

  /** The first i bytes of src have been written at off. */
  ghost predicate Progress(s0: St, s: St, inum: nat, off: nat, src: seq<Byte>, i: nat) {
    i <= |src| && (if i == 0 then s == s0 else Written(s0, s, inum, off, src[..i]))
  }

  lemma ProgressStep(s0: St, s: St, t: St, inum: nat, off: nat, src: seq<Byte>, i: nat, m: nat)
    requires Progress(s0, s, inum, off, src, i) && 0 < m && i + m <= |src|
    requires Written(s, t, inum, off + i, src[i..i + m])
    ensures Progress(s0, t, inum, off, src, i + m)
  {
    hide Written;
    if i == 0 {
      assert src[0..m] == src[..m];
    } else {
      WrittenTwice(s0, s, t, inum, off, src[..i], src[i..i + m]);
      assert src[..i] + src[i..i + m] == src[..i + m];
    }
  }

  /** Chunk j of src, written to inode i, took s to t and logged l. */
  ghost predicate ChunkDone(sb: Sb, i: nat, off: nat, src: seq<Byte>, j: nat, s: St, t: St, l: set<nat>) {
    && j * MAXCHUNK < |src|
    && var lo, hi := j * MAXCHUNK, Min((j + 1) * MAXCHUNK, |src|);
       Written(s, t, i, off + lo, src[lo..hi]) && Exactly(sb, s, t, i, off + lo, hi - lo, l) && |l| <= MAXOPBLOCKS
  }

  /** The first chunks of src took the file system through the states ss; each transaction logged the blocks in ops. */
  ghost predicate Chunks(sb: Sb, i: nat, off: nat, src: seq<Byte>, ss: seq<St>, ops: seq<set<nat>>) {
    |ss| == |ops| + 1 && forall j :: 0 <= j < |ops| ==> ChunkDone(sb, i, off, src, j, ss[j], ss[j + 1], ops[j])
  }

  lemma ChunksNext(sb: Sb, i: nat, off: nat, src: seq<Byte>, ss: seq<St>, ops: seq<set<nat>>, t: St, l: set<nat>)
    requires Chunks(sb, i, off, src, ss, ops) && ChunkDone(sb, i, off, src, |ops|, ss[|ops|], t, l)
    ensures Chunks(sb, i, off, src, ss + [t], ops + [l])
  {
    hide ChunkDone;
    forall j | 0 <= j < |ops| + 1 ensures ChunkDone(sb, i, off, src, j, (ss + [t])[j], (ss + [t])[j + 1], (ops + [l])[j]) {
      if j < |ops| { assert ChunkDone(sb, i, off, src, j, ss[j], ss[j + 1], ops[j]); }
    }
  }

  /**
    filewrite() on an inode: the bytes appear in the file at the file offset, which moves past
    them, chunk by chunk. Each chunk is a transaction that logs exactly what it must and stays
    within its budget. It stops early only where writei() refuses, in a transaction that logs
    nothing, or where there are fewer free blocks than the next chunk takes.
  */
  method Write(fs: FileSys, f: OpenFile, src: seq<Byte>)
    returns (ok: bool, ret: int, ghost i: nat, ghost ss: seq<St>, ghost ops: seq<set<nat>>)
    requires Ready(fs.sb, fs.S(), f.ip.inum) && f.ip.inum in fs.I && fs.I[f.ip.inum] == f.ip.f && |src| < 0x8000_0000
    modifies fs, f, f.ip
    ensures !f.writable ==> ok && ret == -1 && i == 0 && ops == []
    ensures Chunks(fs.sb, f.ip.inum, old(f.off), src, ss, ops) && ss[0] == old(fs.S()) && i == Min(|ops| * MAXCHUNK, |src|)
    ensures f.off == old(f.off) + i
    ensures ok ==> ss[|ops|] == fs.S() && Progress(old(fs.S()), fs.S(), f.ip.inum, old(f.off), src, i)
    ensures ok ==> Ready(fs.sb, fs.S(), f.ip.inum) && f.ip.inum in fs.I && fs.I[f.ip.inum] == f.ip.f
    ensures ok && f.writable ==> ret == if i == |src| then |src| else -1
    ensures ok && f.writable && i < |src| ==> Rejected(f.off, Min(|src| - i, MAXCHUNK), f.ip.f.size) && fs.logged == {}
    ensures !ok ==> i < |src| && !Affords(fs.sb, ss[|ops|], f.ip.inum, f.off, Min(|src| - i, MAXCHUNK))
  {
    hide Ready, Written, Exactly, Touched, Affords, ChunkDone;
    i, ss, ops := 0, [fs.S()], [];
    if !f.writable { return true, -1, 0, ss, ops; }
    ghost var s0, off0 := fs.S(), f.off;
    var k := 0;
    while k < |src|
      invariant k <= |src| && i == k == Min(|ops| * MAXCHUNK, |src|) && f.off == off0 + k
      invariant Chunks(fs.sb, f.ip.inum, off0, src, ss, ops) && ss[0] == s0 && ss[|ops|] == fs.S()
      invariant Ready(fs.sb, fs.S(), f.ip.inum) && f.ip.inum in fs.I && fs.I[f.ip.inum] == f.ip.f
      invariant Progress(s0, fs.S(), f.ip.inum, off0, src, k)
    {
      var n1 := if |src| - k > MAXCHUNK then MAXCHUNK else |src| - k;
      ghost var s1 := fs.S();
      var r;
      ok, r := WriteOp(fs, f.ip, f.off, src[k..k + n1]);
      if !ok { return false, -1, i, ss, ops; }
      if r > 0 { f.off := f.off + r; }
      if r != n1 { break; }
      ProgressStep(s0, s1, fs.S(), f.ip.inum, off0, src, k, n1);
      ChunkIs(fs.sb, f.ip.inum, off0, src, |ops|, k, n1, s1, fs.S(), fs.logged);
      ChunksNext(fs.sb, f.ip.inum, off0, src, ss, ops, fs.S(), fs.logged);
      ss, ops := ss + [fs.S()], ops + [fs.logged];
      k := k + r;
      i := k;
    }
    ok := true;
    ret := if k == |src| then |src| else -1;
  }

  lemma ChunkIs(sb: Sb, i: nat, off: nat, src: seq<Byte>, j: nat, k: nat, n: nat, s: St, t: St, l: set<nat>)
    requires k == Min(j * MAXCHUNK, |src|) < |src| && n == Min(MAXCHUNK, |src| - k)
    requires Written(s, t, i, off + k, src[k..k + n]) && Exactly(sb, s, t, i, off + k, n, l) && |l| <= MAXOPBLOCKS
    ensures ChunkDone(sb, i, off, src, j, s, t, l)
  {
    hide Written, Exactly;
  }
}
