/**
  The operations of kernel/fs.c on inode contents. The disk is the one bread() shows: the
  logged writes of the current operation are already in it. Running out of blocks, where the
  kernel panics, is the result ok == false, which is shown to happen only on a full disk.
*/
module FsOps {
  import opened FsDisk
  import opened Fs

  /** Every bit of the bitmap is set. */
  ghost predicate Full(sb: Sb, d: Disk)
    requires DiskOk(sb, d)
  {
    forall b: nat {:trigger Used(sb, d, b)} :: b < sb.size ==> Used(sb, d, b)
  }

  ghost predicate UsedBelow(sb: Sb, d: Disk, n: nat)
    requires DiskOk(sb, d)
  {
    forall b: nat {:trigger Used(sb, d, b)} :: b < n && b < sb.size ==> Used(sb, d, b)
  }

  ghost predicate NoLoose(own: map<nat, Owner>) { forall b :: b in own ==> own[b] != Loose }

  /** All blocks of the file that start before byte e exist. */
  ghost predicate Covered(d: Disk, x: Dinode, e: nat) {
    forall n: nat {:trigger Addr(d, x, n)} :: n < MAXFILE && n * BSIZE < e ==> Addr(d, x, n) != 0
  }

  /** Inode i may have got more blocks; no contents and no other inode changed. */
  ghost predicate Grows(sb: Sb, s: St, t: St, i: nat) {
    && Inv(sb, t) && i in s.I && i in t.I && t.F == s.F && t.I == s.I[i := t.I[i]]
    && t.I[i].(addrs := s.I[i].addrs) == s.I[i]
    && (s.I[i].addrs[NDIRECT] != 0 ==> t.I[i].addrs[NDIRECT] == s.I[i].addrs[NDIRECT])
    && (forall n: nat {:trigger Addr(t.d, t.I[i], n)} ::
          n < MAXFILE && Addr(s.d, s.I[i], n) != 0 ==> Addr(t.d, t.I[i], n) == Addr(s.d, s.I[i], n))
    && (Synced(sb, s, {i}) ==> Synced(sb, t, {i}))
    && (NoLoose(s.own) ==> NoLoose(t.own)) && KeepsLinks(s.own, t.own)
  }

  /** No block of any file is unlinked, none is freed, and blocks are taken from the lowest on. */
  ghost predicate KeepsLinks(own: map<nat, Owner>, own': map<nat, Owner>) {
    && (forall b :: b in own && Linked(own[b]) ==> b in own' && own'[b] == own[b])
    && LowestFirst(own, own')
  }

  ghost predicate LowestFirst(own: map<nat, Owner>, own': map<nat, Owner>) {
    && (forall b :: b in own ==> b in own')
    && (forall b: nat, c: nat {:trigger Passed(own, own', b, c)} :: Passed(own, own', b, c))
  }

  /** A block that was taken is below every block that is still free. */
  predicate Passed(own: map<nat, Owner>, own': map<nat, Owner>, b: nat, c: nat) {
    b in own' && b !in own && c !in own' ==> b < c
  }

  /** Block b is the lowest free one. */
  ghost predicate LowestFree(own: map<nat, Owner>, b: nat) { b !in own && forall c: nat :: c !in own ==> b <= c }

  lemma LowestSame(own: map<nat, Owner>)
    ensures LowestFirst(own, own) && KeepsLinks(own, own)
  {
  }

  lemma LowestMore(own: map<nat, Owner>, own': map<nat, Owner>, own'': map<nat, Owner>)
    requires LowestFirst(own, own') && LowestFirst(own', own'')
    ensures LowestFirst(own, own'')
  {
    forall b: nat, c: nat ensures Passed(own, own'', b, c) {
      assert Passed(own, own', b, c) && Passed(own', own'', b, c);
    }
  }

  lemma LowestTaken(own: map<nat, Owner>, b: nat, o: Owner)
    requires LowestFree(own, b)
    ensures KeepsLinks(own, own[b := o]) && |own[b := o]| == |own| + 1
  {
    var more := own[b := o];
    forall x: nat, c: nat ensures Passed(own, more, x, c) {}
  }

  // ----- what an operation touches -----

  /** From d0 to d only logged blocks changed, and none of those is a log block. */
  ghost predicate Framed(sb: Sb, d0: Disk, d: Disk, l0: set<nat>, l: set<nat>) {
    && l0 <= l && |d| == |d0|
    && (forall b: nat :: b < |d| && b !in l ==> d[b] == d0[b])
    && (forall b :: b in l && b !in l0 ==> sb.inodestart <= b < sb.size)
  }

  lemma FramedMore(sb: Sb, d0: Disk, d1: Disk, d2: Disk, l0: set<nat>, l1: set<nat>, l2: set<nat>)
    requires Framed(sb, d0, d1, l0, l1) && Framed(sb, d1, d2, l1, l2)
    ensures Framed(sb, d0, d2, l0, l2)
  {
  }

  lemma FramedNone(sb: Sb, d: Disk, l: set<nat>)
    ensures Framed(sb, d, d, l, l)
  {
  }

  lemma FramedOne(sb: Sb, d: Disk, l: set<nat>, b: nat, x: Block)
    requires sb.inodestart <= b < sb.size && b < |d|
    ensures Framed(sb, d, d[b := x], l, l + {b})
  {
  }

  ghost function IndCount(x: Dinode): nat { if x.addrs[NDIRECT] != 0 then 1 else 0 }

  /** The step takes k data blocks and, if inode i gets one, its indirect block. */
  ghost predicate Cost(sb: Sb, s0: St, s: St, l0: set<nat>, l: set<nat>, i: nat, k: nat) {
    && Framed(sb, s0.d, s.d, l0, l) && i in s0.I && i in s.I
    && |s.own| + IndCount(s0.I[i]) == |s0.own| + k + IndCount(s.I[i])
  }

  lemma CostNone(sb: Sb, s: St, l: set<nat>, i: nat)
    requires i in s.I
    ensures Cost(sb, s, s, l, l, i, 0)
  {
  }

  lemma CostMore(sb: Sb, s0: St, s1: St, s2: St, l0: set<nat>, l1: set<nat>, l2: set<nat>, i: nat, j: nat, k: nat)
    requires Cost(sb, s0, s1, l0, l1, i, j) && Cost(sb, s1, s2, l1, l2, i, k)
    ensures Cost(sb, s0, s2, l0, l2, i, j + k)
  {
  }

  /** Taking block b costs one block, whatever it becomes. */
  lemma TakenCost(sb: Sb, s: St, b: nat, l: set<nat>)
    requires Inv(sb, s) && b < sb.size && LowestFree(s.own, b)
    ensures Framed(sb, s.d, Taken(sb, s, b).d, l, l + {Bblock(sb, b), b}) && Nmeta(sb) <= b
  {
    hide BitsOk, InodesOk, PutMapBit;
    assert sb.bmapstart <= Bblock(sb, b) < Nmeta(sb);
  }

  /** Files keep the blocks they have. */
  lemma CoveredKept(sb: Sb, s: St, t: St, i: nat, e: nat)
    requires Inv(sb, s) && Inv(sb, t) && KeepsLinks(s.own, t.own) && i in s.I && i in t.I && Covered(s.d, s.I[i], e)
    ensures Covered(t.d, t.I[i], e)
  {
    hide BitsOk, Entry;
    assert InodeOk(s, i);
    forall n: nat | n < MAXFILE && n * BSIZE < e ensures Addr(t.d, t.I[i], n) != 0 {
      assert LinkOk(s.d, s.own, s.I[i], i, n);
      assert RoleOk(sb, t, Addr(s.d, s.I[i], n));
    }
  }

  lemma GrowsSame(sb: Sb, s: St, i: nat)
    requires Inv(sb, s) && i in s.I
    ensures Grows(sb, s, s, i)
  {
  }

  lemma GrowsMore(sb: Sb, s: St, t: St, u: St, i: nat)
    requires Grows(sb, s, t, i) && Grows(sb, t, u, i)
    ensures Grows(sb, s, u, i)
  {
    hide Inv, Synced, NoLoose;
    forall n: nat | n < MAXFILE && Addr(s.d, s.I[i], n) != 0 ensures Addr(u.d, u.I[i], n) == Addr(s.d, s.I[i], n) {
      assert Addr(t.d, t.I[i], n) == Addr(s.d, s.I[i], n);
    }
    LowestMore(s.own, t.own, u.own);
  }

  /** Steps that write only data blocks and bitmap blocks leave the inodes on disk alone. */
  lemma SyncedStep(sb: Sb, s: St, t: St, i: nat)
    requires Synced(sb, s, {i}) && Inv(sb, t) && t.I.Keys == s.I.Keys
    requires forall b: nat :: sb.inodestart <= b < sb.bmapstart ==> t.d[b] == s.d[b]
    requires forall j :: j in s.I && j != i ==> t.I[j] == s.I[j]
    ensures Synced(sb, t, {i})
  {
    hide InodesOk, BitsOk, RolesOk;
    SyncedKept(sb, s, t, {i});
  }

  class Inode {
    const inum: nat
    var f: Dinode

    constructor (inum: nat, f: Dinode)
      ensures this.inum == inum && this.f == f
    {
      this.inum, this.f := inum, f;
    }
  }

  class FileSys {
    const sb: Sb
    var d: Disk
    ghost var own: map<nat, Owner>
    ghost var I: map<nat, Dinode>
    ghost var F: map<nat, seq<Byte>>
    var logged: set<nat>                // blocks given to log_write()

    /** A mounted file system; own, I and F say what is on the disk. */
    constructor (sb: Sb, d: Disk, ghost own: map<nat, Owner>, ghost I: map<nat, Dinode>, ghost F: map<nat, seq<Byte>>)
      ensures this.sb == sb && S() == St(d, own, I, F) && logged == {}
    {
      this.sb, this.d, this.own, this.I, this.F, logged := sb, d, own, I, F, {};
    }

    ghost function S(): St reads this { St(d, own, I, F) }

    /** Change a block and hand it to log_write(). */
    method LogWrite(b: nat, blk: Block)
      requires b < |d|
      modifies this`d, this`logged
      ensures d == old(d)[b := blk] && logged == old(logged) + {b}
    {
      d := d[b := blk];
      logged := logged + {b};
    }

    /** balloc(): the lowest free block, marked in use and zeroed. It fails only when there is none. */
    method Balloc() returns (ok: bool, b: nat)
      requires Inv(sb, S())
      modifies this
      ensures ok ==> b < sb.size && !Used(sb, old(d), b) && UsedBelow(sb, old(d), b) && LowestFree(old(own), b)
      ensures ok ==> S() == Taken(sb, old(S()), b)
      ensures ok ==> logged == old(logged) + {Bblock(sb, b), b}
      ensures !ok ==> S() == old(S()) && logged == old(logged) && Full(sb, d)
    {
      hide Inv, MapBit, PutMapBit;
      FullShape(sb, S());
      var base := 0;
      while base < sb.size
        invariant base % BPB == 0 && S() == old(S()) && logged == old(logged) && UsedBelow(sb, d, base)
      {
        var bp := d[Bblock(sb, base)];
        var bi := 0;
        while bi < BPB && base + bi < sb.size
          invariant bi <= BPB && S() == old(S()) && logged == old(logged) && UsedBelow(sb, d, base + bi)
        {
          SameBitmapBlock(sb, d, base, bi);
          if !MapBit(bp, bi) {
            b := base + bi;
            FreeNotOwned(sb, S(), b);
            LowestIs(sb, S(), b);
            LogWrite(Bblock(sb, base), PutMapBit(bp, bi, true));
            LogWrite(b, Zeros());
            own := own[b := Loose];
            return true, b;
          }
          bi := bi + 1;
        }
        base := base + BPB;
      }
      return false, 0;
    }

    /** The first branch of bmap(): a direct block. */
    method BmapDirect(ip: Inode, bn: nat) returns (ok: bool, addr: nat)
      requires Inv(sb, S()) && ip.inum in I && I[ip.inum] == ip.f && bn < NDIRECT
      modifies this, ip
      ensures Grows(sb, old(S()), S(), ip.inum) && ip.inum in I && I[ip.inum] == ip.f
      ensures ok ==> addr != 0 && addr == Addr(d, ip.f, bn) && OneBlock(old(S()), S(), ip.inum, bn)
      ensures ok ==> logged == old(logged) + Touch(sb, bn, old(Addr(d, ip.f, bn)), addr, old(ip.f), ip.f)
      ensures old(Addr(d, ip.f, bn)) != 0 ==> ok && S() == old(S()) && logged == old(logged)
      ensures Cost(sb, old(S()), S(), old(logged), logged, ip.inum, if old(Addr(d, ip.f, bn)) == 0 && ok then 1 else 0)
      ensures !ok ==> DiskOk(sb, d) && Full(sb, d) && S() == old(S())
    {
      hide Inv, Grows, Addr, Used, Allocated, Full, UsedBelow, OneBlock, Cost, LowestFree;
      ghost var i := ip.inum;
      CostNone(sb, S(), logged, i);
      addr := ip.f.addrs[bn];
      DirectAddr(d, ip.f, bn);
      OneBlockSame(S(), i, bn);
      if addr == 0 {
        ok, addr := Balloc();
        if !ok { FullShape(sb, S()); GrowsSame(sb, S(), i); return; }
        AllocatedFits(sb, old(S()), addr);
        LinkDirectStep(sb, old(S()), i, bn, addr);
        DirectCost(sb, old(S()), i, bn, addr, old(logged));
        ip.f := ip.f.(addrs := ip.f.addrs[bn := addr]);
        own, I := own[addr := Data(i, bn)], I[i := ip.f];
        DirectAddr(d, ip.f, bn);
      } else {
        GrowsSame(sb, S(), i);
      }
      ok := true;
    }

    /** The indirect block, allocated if necessary. */
    method LoadIndirect(ip: Inode) returns (ok: bool, addr: nat)
      requires Inv(sb, S()) && ip.inum in I && I[ip.inum] == ip.f
      modifies this, ip
      ensures Grows(sb, old(S()), S(), ip.inum) && ip.inum in I && I[ip.inum] == ip.f
      ensures ok ==> 0 < addr < |d| && addr == ip.f.addrs[NDIRECT] && SameAddrs(old(S()), S(), ip.inum)
      ensures ok && old(ip.f.addrs[NDIRECT]) == 0 ==> logged == old(logged) + {addr, Bblock(sb, addr)}
      ensures old(ip.f.addrs[NDIRECT]) != 0 ==> ok && S() == old(S()) && logged == old(logged)
      ensures Cost(sb, old(S()), S(), old(logged), logged, ip.inum, 0)
      ensures !ok ==> DiskOk(sb, d) && Full(sb, d)
    {
      hide Inv, Grows, Addr, Used, Allocated, Full, UsedBelow, SameAddrs, Cost, LowestFree;
      ghost var i := ip.inum;
      CostNone(sb, S(), logged, i);
      addr := ip.f.addrs[NDIRECT];
      if addr == 0 {
        ok, addr := Balloc();
        if !ok { FullShape(sb, S()); GrowsSame(sb, S(), i); return; }
        AllocatedFits(sb, old(S()), addr);
        LinkIndirectStep(sb, old(S()), i, addr);
        IndirectCost(sb, old(S()), i, addr, old(logged));
        ip.f := ip.f.(addrs := ip.f.addrs[NDIRECT := addr]);
        own, I := own[addr := Indirect(i)], I[i := ip.f];
      } else {
        GrowsSame(sb, S(), i);
        IndirectInRange(sb, S(), i);
      }
      ok := true;
    }

    /** The second branch of bmap(): a block listed in the indirect block. */
    method BmapIndirect(ip: Inode, bn: nat) returns (ok: bool, addr: nat)
      requires Inv(sb, S()) && ip.inum in I && I[ip.inum] == ip.f && NDIRECT <= bn < MAXFILE
      modifies this, ip
      ensures Grows(sb, old(S()), S(), ip.inum) && ip.inum in I && I[ip.inum] == ip.f
      ensures ok ==> addr != 0 && addr == Addr(d, ip.f, bn) && OneBlock(old(S()), S(), ip.inum, bn)
      ensures ok ==> logged == old(logged) + Touch(sb, bn, old(Addr(d, ip.f, bn)), addr, old(ip.f), ip.f)
      ensures old(Addr(d, ip.f, bn)) != 0 ==> ok && S() == old(S()) && logged == old(logged)
      ensures Cost(sb, old(S()), S(), old(logged), logged, ip.inum, if old(Addr(d, ip.f, bn)) == 0 && ok then 1 else 0)
      ensures !ok ==> DiskOk(sb, d) && Full(sb, d)
    {
      hide Inv, Grows, Addr, Used, Allocated, Full, UsedBelow, SameAddrs, Entry, PutEntry, OneBlock, Cost, Touch, Bblock;
      ghost var s0, i := S(), ip.inum;
      NoTouch(sb, bn, ip.f, logged);
      IndirectAddr(d, ip.f, bn);
      var ind;
      ok, ind := LoadIndirect(ip);
      if !ok { return false, 0; }
      ghost var s1, logged1 := S(), logged;
      IndirectAddr(d, ip.f, bn);
      addr := Entry(d[ind], bn - NDIRECT);
      if addr == 0 {
        GrowsInv(sb, s0, s1, i);
        ok, addr := AddEntry(ip, bn, ind);
        GrowsMore(sb, s0, s1, S(), i);
        CostMore(sb, s0, s1, S(), old(logged), logged1, logged, i, 0, if ok then 1 else 0);
        if !ok { return; }
        OneBlockAfter(s0, s1, S(), i, bn);
        TouchSum(sb, bn, addr, s0.I[i], ip.f, old(logged), logged1, logged);
      } else {
        SameIsOne(s0, s1, i, bn);
      }
      SameAddr(s0, s1, i, bn);
      ok := true;
    }

    /** A new block, listed in the indirect block. */
    method AddEntry(ip: Inode, bn: nat, ind: nat) returns (ok: bool, addr: nat)
      requires Inv(sb, S()) && ip.inum in I && I[ip.inum] == ip.f && NDIRECT <= bn < MAXFILE
      requires 0 < ind < |d| && ind == ip.f.addrs[NDIRECT] && Addr(d, ip.f, bn) == 0
      modifies this
      ensures Grows(sb, old(S()), S(), ip.inum) && ip.inum in I && I[ip.inum] == ip.f
      ensures ok ==> addr != 0 && addr == Addr(d, ip.f, bn) && OneBlock(old(S()), S(), ip.inum, bn)
      ensures ok ==> logged == old(logged) + {Bblock(sb, addr), addr} + {ind}
      ensures Cost(sb, old(S()), S(), old(logged), logged, ip.inum, if ok then 1 else 0)
      ensures !ok ==> DiskOk(sb, d) && Full(sb, d)
    {
      hide Inv, Grows, Addr, Used, Allocated, Full, UsedBelow, Entry, PutEntry, OneBlock, Cost, LowestFree;
      ghost var s1, i := S(), ip.inum;
      ok, addr := Balloc();
      if !ok {
        FullShape(sb, S());
        GrowsSame(sb, S(), i);
        CostNone(sb, S(), logged, i);
        return;
      }
      AllocatedFits(sb, s1, addr);
      LinkEntryStep(sb, s1, i, bn, addr);
      EntryCost(sb, s1, i, bn, addr, old(logged));
      LogWrite(ind, PutEntry(d[ind], bn - NDIRECT, addr));
      own := own[addr := Data(i, bn)];
    }

    /** bmap(): the disk block of block bn of a file, allocated if necessary. */
    method Bmap(ip: Inode, bn: nat) returns (ok: bool, addr: nat)
      requires Inv(sb, S()) && ip.inum in I && I[ip.inum] == ip.f && bn < MAXFILE
      modifies this, ip
      ensures Grows(sb, old(S()), S(), ip.inum) && ip.inum in I && I[ip.inum] == ip.f
      ensures ok ==> addr != 0 && addr == Addr(d, ip.f, bn) && OneBlock(old(S()), S(), ip.inum, bn)
      ensures ok ==> logged == old(logged) + Touch(sb, bn, old(Addr(d, ip.f, bn)), addr, old(ip.f), ip.f)
      ensures old(Addr(d, ip.f, bn)) != 0 ==> ok && S() == old(S()) && logged == old(logged)
      ensures Cost(sb, old(S()), S(), old(logged), logged, ip.inum, if old(Addr(d, ip.f, bn)) == 0 && ok then 1 else 0)
      ensures !ok ==> DiskOk(sb, d) && Full(sb, d) && (bn < NDIRECT ==> S() == old(S()))
    {
      hide Inv, Grows, Addr, Full, Touch, OneBlock, Cost;
      if bn < NDIRECT {
        ok, addr := BmapDirect(ip, bn);
      } else {
        ok, addr := BmapIndirect(ip, bn);
      }
    }

    /** iupdate(): copy the in-memory inode to disk. */
    method Iupdate(ip: Inode)
      requires Inv(sb, S()) && Synced(sb, S(), {ip.inum}) && ip.inum in I && I[ip.inum] == ip.f
      modifies this`d, this`logged
      ensures Inv(sb, S()) && Synced(sb, S(), {}) && S() == old(S()).(d := SetIno(sb, old(d), ip.inum, ip.f))
      ensures logged == old(logged) + {Iblock(sb, ip.inum)} && Framed(sb, old(d), d, old(logged), logged)
    {
      hide Inv, Synced, PutInode;
      InodeBlock(sb, S(), ip.inum);
      FramedOne(sb, d, logged, Iblock(sb, ip.inum), PutInode(d[Iblock(sb, ip.inum)], ip.inum % IPB, ip.f));
      SyncOk(sb, S(), ip.inum);
      SyncDone(sb, S(), ip.inum);
      LogWrite(Iblock(sb, ip.inum), PutInode(d[Iblock(sb, ip.inum)], ip.inum % IPB, ip.f));
    }

    /**
      readi(): the bytes of the file from off on, n of them or up to the end. Reading a file without
      holes changes nothing; a hole reads as zeros, and reading it may run out of blocks.
    */
    method Readi(ip: Inode, off: Uint, n: Uint) returns (ok: bool, r: seq<Byte>)
      requires Inv(sb, S()) && ip.inum in I && I[ip.inum] == ip.f
      modifies this, ip
      ensures Grows(sb, old(S()), S(), ip.inum) && ip.inum in I && I[ip.inum] == ip.f
      ensures ok ==> r == Slice(File(old(S()), ip.inum), off, n)
      ensures old(Covered(d, ip.f, ip.f.size)) ==> ok && S() == old(S()) && logged == old(logged)
      ensures !ok ==> DiskOk(sb, d) && Full(sb, d)
    {
      hide Inv, Grows, Addr, Full, Covered, File, Cost, Touch, OneBlock;
      ghost var s0, i := S(), ip.inum;
      GrowsSame(sb, s0, i);
      FileIs(sb, s0, i);
      r := [];
      if off > ip.f.size || (off + n) % 0x1_0000_0000 < off { return true, []; }
      var want: nat := if off + n > ip.f.size then ip.f.size - off else n;
      var tot: nat := 0;
      while tot < want
        invariant tot <= want && Grows(sb, s0, S(), i) && ip.inum in I && I[ip.inum] == ip.f && ip.f.size == s0.I[i].size
        invariant r == File(s0, i)[off..off + tot]
        invariant Covered(s0.d, s0.I[i], s0.I[i].size) ==> S() == s0 && logged == old(logged)
      {
        var o := off + tot;
        ghost var s1 := S();
        ReadReady(sb, s0, s1, i, o);
        var addr;
        ok, addr := Bmap(ip, o / BSIZE);
        GrowsMore(sb, s0, s1, S(), i);
        if !ok { return; }
        var m := Min(want - tot, BSIZE - o % BSIZE);
        ChunkRead(sb, s0, S(), i, o, m, addr);
        r := r + d[addr][o % BSIZE..o % BSIZE + m];
        tot := tot + m;
      }
      return true, r;
    }

    /** One round of writei(): bytes that fall into one block. */
    method WriteChunk(ip: Inode, o: nat, chunk: seq<Byte>) returns (ok: bool, ghost a: nat)
      requires Inv(sb, S()) && ip.inum in I && I[ip.inum] == ip.f
      requires 0 < |chunk| && o % BSIZE + |chunk| <= BSIZE && o + |chunk| <= MAXBYTES && o / BSIZE < MAXFILE
      modifies this, ip
      ensures ip.inum in I && I[ip.inum] == ip.f
      ensures ok ==> ip.inum in old(F) && |old(F)[ip.inum]| == MAXBYTES
      ensures ok ==> Wrote(sb, old(S()), S(), ip.inum, Splice(old(F)[ip.inum], o, chunk))
      ensures ok ==> a != 0 && a == Addr(d, ip.f, o / BSIZE) && OneBlock(old(S()), S(), ip.inum, o / BSIZE)
      ensures ok ==> logged == old(logged) + Touch(sb, o / BSIZE, old(Addr(d, ip.f, o / BSIZE)), a, old(ip.f), ip.f) + {a}
      ensures Cost(sb, old(S()), S(), old(logged), logged, ip.inum, if old(Addr(d, ip.f, o / BSIZE)) == 0 && ok then 1 else 0)
      ensures !ok ==> Grows(sb, old(S()), S(), ip.inum) && DiskOk(sb, d) && Full(sb, d)
      ensures !ok ==> old(Addr(d, ip.f, o / BSIZE)) == 0 && (o / BSIZE < NDIRECT ==> S() == old(S()))
    {
      hide Inv, Grows, Addr, Full, Touch, Splice, OneBlock, Cost;
      ghost var s0, i := S(), ip.inum;
      var addr;
      ok, addr := Bmap(ip, o / BSIZE);
      a := addr;
      if !ok { return; }
      ghost var s1 := S();
      GrowsInv(sb, s0, s1, i);
      DataThere(sb, s1, i, o / BSIZE, addr);
      var blk := Splice(d[addr], o % BSIZE, chunk);
      WriteStep(sb, s0, s1, i, o, addr, chunk);
      DataCost(sb, s0, s1, old(logged), logged, i, if Addr(s0.d, s0.I[i], o / BSIZE) == 0 then 1 else 0, addr, blk,
               F[i := Splice(F[i], o, chunk)]);
      LogWrite(addr, blk);
      F := F[i := Splice(F[i], o, chunk)];
    }

    /** The loop of writei(). */
    method WriteLoop(ip: Inode, off: Uint, src: seq<Byte>) returns (ok: bool)
      requires Inv(sb, S()) && ip.inum in I && I[ip.inum] == ip.f && off <= ip.f.size && off + |src| <= MAXBYTES
      modifies this, ip
      ensures Inv(sb, S()) && ip.inum in I && I[ip.inum] == ip.f
      ensures ok ==> Writing(sb, old(S()), S(), ip.inum, off, src, |src|)
      ensures ok ==> Spent(sb, old(S()), S(), ip.inum, off / BSIZE, off / BSIZE + Touched(off, |src|), old(logged), logged)
      ensures ok ==> Paid(sb, old(S()), S(), old(logged), logged, ip.inum, off / BSIZE, off / BSIZE + Touched(off, |src|))
      ensures !ok ==> DiskOk(sb, d) && Full(sb, d)
      ensures off / BSIZE + Touched(off, |src|) <= MAXFILE
      ensures ok <==> |old(own)| + Need(old(S()), ip.inum, off / BSIZE, off / BSIZE + Touched(off, |src|)) <= sb.size
    {
      hide Inv, Grows, Wrote, Writing, Spent, Full, Addr, Splice, Touched, Touch, OneBlock, Cost, Paid, Need;
      ghost var s0, i, lo := S(), ip.inum, off / BSIZE;
      PaidNone(sb, s0, i, off, logged);
      WritingNone(sb, s0, i, off, src);
      SpentNone(sb, s0, i, off, logged);
      TouchedFits(off, |src|);
      var tot := 0;
      while tot < |src|
        invariant tot <= |src| && (tot == 0 || tot == |src| || (off + tot) % BSIZE == 0)
        invariant ip.inum in I && I[ip.inum] == ip.f && Writing(sb, s0, S(), i, off, src, tot)
        invariant Spent(sb, s0, S(), i, lo, lo + Touched(off, tot), old(logged), logged)
        invariant Paid(sb, s0, S(), old(logged), logged, i, lo, lo + Touched(off, tot))
      {
        var o := off + tot;
        var m := Min(|src| - tot, BSIZE - o % BSIZE);
        ghost var s1, l1 := S(), logged;
        WritingReady(sb, s0, s1, i, off, src, tot);
        TouchedStep(off, |src|, tot, m);
        ghost var a;
        ok, a := WriteChunk(ip, o, src[tot..tot + m]);
        if !ok {
          GrowsInv(sb, s1, S(), i);
          TouchedBound(off, |src|, tot + m);
          PaidFails(sb, s0, s1, S(), old(logged), l1, logged, i, lo, o / BSIZE, lo + Touched(off, |src|));
          return;
        }
        PaidStep(sb, s0, s1, S(), old(logged), l1, logged, i, lo, o / BSIZE);
        WritingStep(sb, s0, s1, S(), i, off, src, tot, m);
        SpentStep(sb, s0, s1, S(), i, lo, o / BSIZE, old(logged), l1, logged, Splice(s1.F[i], o, src[tot..tot + m]));
        tot := tot + m;
      }
      WritingDone(sb, s0, S(), i, off, src);
      NeedPaid(sb, s0, S(), old(logged), logged, i, lo, lo + Touched(off, |src|));
      ok := true;
    }

    /**
      writei(): replace the bytes of the file from off on by src, extending it if need be. It logs
      exactly the inode block and what its blocks need.
    */
    method Writei(ip: Inode, off: Uint, src: seq<Byte>) returns (ok: bool, r: int)
      requires Inv(sb, S()) && Synced(sb, S(), {ip.inum}) && ip.inum in I && I[ip.inum] == ip.f
      requires |src| < 0x1_0000_0000
      modifies this, ip
      ensures Inv(sb, S()) && ip.inum in I && I[ip.inum] == ip.f
      ensures old(Rejected(off, |src|, ip.f.size)) ==> ok && r == -1 && S() == old(S()) && logged == old(logged)
      ensures ok ==> (r == -1 <==> off > old(ip.f.size) || off + |src| > 268 * 1024)
      ensures ok && !old(Rejected(off, |src|, ip.f.size)) ==>
                && r == |src| && Synced(sb, S(), {})
                && Written(old(S()), S(), ip.inum, off, src)
                && (old(NoLoose(own)) ==> NoLoose(own)) && KeepsLinks(old(own), own)
                && (old(Covered(d, ip.f, ip.f.size)) ==> Covered(d, ip.f, ip.f.size))
      ensures ok && !old(Rejected(off, |src|, ip.f.size)) ==>
                && off / BSIZE + Touched(off, |src|) <= MAXFILE
                && logged == old(logged) + {Iblock(sb, ip.inum)}
                             + Logs(sb, old(S()), S(), ip.inum, off / BSIZE, off / BSIZE + Touched(off, |src|))
                && Paid(sb, old(S()), S(), old(logged), logged, ip.inum, off / BSIZE, off / BSIZE + Touched(off, |src|))
                && Spots(old(S()), S(), ip.inum, off / BSIZE, off / BSIZE + Touched(off, |src|))
                && KeepsIndirect(old(S()), S(), ip.inum, off / BSIZE + Touched(off, |src|))
      ensures !ok ==> DiskOk(sb, d) && Full(sb, d)
      ensures !old(Rejected(off, |src|, ip.f.size)) ==>
                && off / BSIZE + Touched(off, |src|) <= MAXFILE
                && (ok <==> |old(own)| + Need(old(S()), ip.inum, off / BSIZE, off / BSIZE + Touched(off, |src|)) <= sb.size)
    {
      hide Paid, Cost, Spots, Framed, KeepsIndirect, Need;
      hide Inv, Synced, Grows, Wrote, Writing, Spent, Full, Logs, Addr, Covered, NoLoose, KeepsLinks, Written, Iblock, Touched;
      if off > ip.f.size || (off + |src|) % 0x1_0000_0000 < off { return true, -1; }
      if (off + |src|) % 0x1_0000_0000 > MAXFILE * BSIZE { return true, -1; }
      ghost var s0, i := S(), ip.inum;
      ok := WriteLoop(ip, off, src);
      if !ok { return false, 0; }
      ghost var s2, l2 := S(), logged;
      WritingDone(sb, s0, s2, i, off, src);
      if off + |src| > ip.f.size {
        ip.f := ip.f.(size := off + |src|);
        I := I[i := ip.f];
      }
      WritingSized(sb, s0, s2, S(), i, off, src);
      ghost var s3 := S();
      Iupdate(ip);
      WrittenSynced(sb, s0, s3, i, off, src);
      SizedAddrs(sb, s2, s3, i);
      SpentDone(sb, s0, s2, S(), i, off / BSIZE, off / BSIZE + Touched(off, |src|), old(logged), l2);
      PaidDone(sb, s0, s2, S(), i, off / BSIZE, off / BSIZE + Touched(off, |src|), old(logged), l2, logged);
      r := |src|;
    }

    /** bfree(): clear the bit of a block; the panic on a free block cannot happen. */
    method Bfree(b: nat)
      requires Inv(sb, S()) && b in own && own[b] == Loose
      modifies this
      ensures DiskOk(sb, old(d)) && b < sb.size && Inv(sb, S())
      ensures S() == old(S()).(d := SetUsed(sb, old(d), b, false), own := old(own) - {b})
      ensures logged == old(logged) + {Bblock(sb, b)} && Framed(sb, old(d), d, old(logged), logged)
    {
      hide Inv, Used, PutMapBit, MapBit;
      FullShape(sb, S());
      ReleaseOk(sb, S(), b);
      FramedOne(sb, d, logged, Bblock(sb, b), PutMapBit(d[Bblock(sb, b)], b % BPB, false));
      UsedIs(sb, d, b);
      var bp := d[Bblock(sb, b)];
      if !MapBit(bp, b % BPB) { assert false; }
      LogWrite(Bblock(sb, b), PutMapBit(bp, b % BPB, false));
      own := own - {b};
    }

    /**
      itrunc(): discard the contents. Exactly the blocks of this inode are freed, whatever its
      size, and no other inode or file changes.
    */
    method Itrunc(ip: Inode)
      requires Inv(sb, S()) && Synced(sb, S(), {ip.inum}) && ip.inum in I && I[ip.inum] == ip.f
      modifies this, ip
      ensures Inv(sb, S()) && Synced(sb, S(), {}) && ip.inum in I && I[ip.inum] == ip.f
      ensures ip.f == old(ip.f).(addrs := NoAddrs(), size := 0)
      ensures I == old(I)[ip.inum := ip.f] && F == old(F)[ip.inum := Blank()]
      ensures Without(old(own), own, ip.inum) && Framed(sb, old(d), d, old(logged), logged)
      ensures logged == old(logged) + {Iblock(sb, ip.inum)} + Maps(sb, old(own), ip.inum, MAXFILE + 1)
      ensures forall b :: b in old(own) && OwnedBy(old(own)[b], ip.inum) ==> Rank(old(own)[b]) <= MAXFILE
    {
      hide Inv, Synced, Freed, Trimmed, NoAddrs, SetIno, Blank, Without, Framed, Maps;
      AllRanks(sb, S(), ip.inum);
      NoMaps(sb, own, ip.inum);
      ghost var s0, i := S(), ip.inum;
      FreedNone(sb, s0, i);
      own, I, F := Trimmed(own, i, 0), I[i := I[i].(addrs := NoAddrs(), size := 0)], F[i := Blank()];
      TruncDirect(ip, s0, i);
      ghost var d1, l1 := d, logged;
      FramedNone(sb, d, logged);
      if ip.f.addrs[NDIRECT] != 0 {
        TruncIndirect(ip.f.addrs[NDIRECT], s0, i);
        ip.f := ip.f.(addrs := ip.f.addrs[NDIRECT := 0]);
      } else {
        NoIndirect(sb, s0, S(), i);
        NoIndirectMap(sb, s0, i);
      }
      ip.f := ip.f.(size := 0);
      FreedAll(sb, s0, S(), i, ip.f);
      ghost var d2, l2 := d, logged;
      Iupdate(ip);
      FramedMore(sb, s0.d, d1, d2, old(logged), l1, l2);
      FramedMore(sb, s0.d, d2, d, old(logged), l2, logged);
    }

    /** The direct half of itrunc(). */
    method TruncDirect(ip: Inode, ghost s0: St, ghost i: nat)
      requires i in s0.I && Freed(sb, s0, S(), i, 0) && ip.f == s0.I[i]
      modifies this, ip
      ensures Freed(sb, s0, S(), i, NDIRECT) && AddrsFrom(ip.f, s0.I[i], NDIRECT) && Framed(sb, old(d), d, old(logged), logged)
      ensures logged == old(logged) + Maps(sb, s0.own, i, NDIRECT)
    {
      hide Inv, Synced, Freed, Trimmed, SetUsed, Addr, Framed, Maps;
      FramedNone(sb, d, logged);
      NoMaps(sb, s0.own, i);
      var k := 0;
      while k < NDIRECT
        invariant k <= NDIRECT && Freed(sb, s0, S(), i, k) && AddrsFrom(ip.f, s0.I[i], k) && Framed(sb, old(d), d, old(logged), logged)
        invariant logged == old(logged) + Maps(sb, s0.own, i, k)
      {
        NextMap(sb, s0, S(), i, k);
        DirectAddr(s0.d, s0.I[i], k);
        FreedNext(sb, s0, S(), i, k);
        if ip.f.addrs[k] != 0 {
          ghost var s1, l1 := S(), logged;
          Bfree(ip.f.addrs[k]);
          FramedMore(sb, old(d), s1.d, d, old(logged), l1, logged);
          FreedStep(sb, s0, s1, i, k, ip.f.addrs[k]);
          ip.f := ip.f.(addrs := ip.f.addrs[k := 0]);
        }
        k := k + 1;
      }
    }

    /** The indirect half of itrunc(). */
    method TruncIndirect(ind: nat, ghost s0: St, ghost i: nat)
      requires i in s0.I && ind == s0.I[i].addrs[NDIRECT] && ind != 0 && Freed(sb, s0, S(), i, NDIRECT)
      requires Maps(sb, s0.own, i, NDIRECT) <= logged
      modifies this
      ensures Freed(sb, s0, S(), i, MAXFILE + 1) && Framed(sb, old(d), d, old(logged), logged)
      ensures logged == old(logged) + Maps(sb, s0.own, i, MAXFILE + 1)
    {
      hide Inv, Synced, Freed, Trimmed, Entry, SetUsed, Addr, Framed, Maps;
      FramedNone(sb, d, logged);
      IndirectThere(sb, s0, S(), i, NDIRECT);
      var bp := d[ind];
      var j := 0;
      while j < NINDIRECT
        invariant j <= NINDIRECT && Freed(sb, s0, S(), i, NDIRECT + j) && Framed(sb, old(d), d, old(logged), logged)
        invariant logged == old(logged) + Maps(sb, s0.own, i, NDIRECT + j)
      {
        NextMap(sb, s0, S(), i, NDIRECT + j);
        IndirectAddr(s0.d, s0.I[i], NDIRECT + j);
        FreedNext(sb, s0, S(), i, NDIRECT + j);
        if Entry(bp, j) != 0 {
          ghost var s1, l1 := S(), logged;
          Bfree(Entry(bp, j));
          FramedMore(sb, old(d), s1.d, d, old(logged), l1, logged);
          FreedStep(sb, s0, s1, i, NDIRECT + j, Entry(bp, j));
        }
        j := j + 1;
      }
      IndirectThere(sb, s0, S(), i, MAXFILE);
      NextMap(sb, s0, S(), i, MAXFILE);
      ghost var s1, l1 := S(), logged;
      Bfree(ind);
      FramedMore(sb, old(d), s1.d, d, old(logged), l1, logged);
      FreedStep(sb, s0, s1, i, MAXFILE, ind);
    }
  }

  /** Consecutive blocks share a bitmap block. */
  lemma SameBitmapBlock(sb: Sb, d: Disk, base: nat, bi: nat)
    requires DiskOk(sb, d) && base % BPB == 0 && bi < BPB && base + bi < sb.size
    ensures Bblock(sb, base + bi) == Bblock(sb, base) < Nmeta(sb) && (base + bi) % BPB == bi
    ensures Used(sb, d, base + bi) == MapBit(d[Bblock(sb, base)], bi)
  {
  }

  lemma DirectAddr(d: Disk, x: Dinode, bn: nat)
    requires bn < NDIRECT
    ensures bn < MAXFILE && bn <= NDIRECT && |x.addrs| == NDIRECT + 1 && Addr(d, x, bn) == x.addrs[bn]
  {
  }

  lemma FullShape(sb: Sb, s: St)
    requires Inv(sb, s)
    ensures DiskOk(sb, s.d)
  {
  }

  lemma FreeNotOwned(sb: Sb, s: St, b: nat)
    requires Inv(sb, s) && b < sb.size && !Used(sb, s.d, b)
    ensures b !in s.own && Bblock(sb, b) < |s.d|
  {
    hide InodesOk, RolesOk;
  }

  lemma LowestIs(sb: Sb, s: St, b: nat)
    requires Inv(sb, s) && b < sb.size && !Used(sb, s.d, b) && UsedBelow(sb, s.d, b)
    ensures LowestFree(s.own, b)
  {
    hide InodesOk, RolesOk, Used;
    forall c: nat | c < b ensures c in s.own { assert Used(sb, s.d, c); }
  }

  lemma AllocatedFits(sb: Sb, s: St, b: nat)
    requires Inv(sb, s) && b < sb.size && LowestFree(s.own, b)
    ensures 0 < b < 0x1_0000_0000
  {
    hide BitsOk, InodesOk;
  }

  /** The state after balloc(). */
  ghost function Taken(sb: Sb, s: St, b: nat): St
    requires DiskOk(sb, s.d) && b < sb.size
  {
    s.(d := Allocated(sb, s.d, b), own := s.own[b := Loose])
  }

  /** Allocation changes no block map and no inode on disk. */
  lemma TakenKeeps(sb: Sb, s: St, b: nat, i: nat)
    requires Inv(sb, s) && b < sb.size && b !in s.own && i in s.I
    ensures Inv(sb, Taken(sb, s, b)) && b < |s.d| && Taken(sb, s, b).d[b] == Zeros() && |Taken(sb, s, b).d| == |s.d|
    ensures forall n: nat :: n < MAXFILE ==> Addr(Taken(sb, s, b).d, s.I[i], n) == Addr(s.d, s.I[i], n)
    ensures forall c: nat :: sb.inodestart <= c < sb.bmapstart ==> Taken(sb, s, b).d[c] == s.d[c]
  {
    hide InodeOk, BitsOk, PutMapBit, MapBit, Addr;
    AllocateOk(sb, s, b);
    AllocateApart(sb, s, b);
    assert InodeOk(s, i);
    InodeKept(s, Taken(sb, s, b), {}, i);
  }

  /** The parts of Grows that follow from the inode blocks being left alone. */
  lemma GrowsBy(sb: Sb, s: St, t: St, i: nat)
    requires Inv(sb, s) && Inv(sb, t) && i in s.I && i in t.I && t.F == s.F && t.I == s.I[i := t.I[i]]
    requires t.I[i].(addrs := s.I[i].addrs) == s.I[i]
    requires s.I[i].addrs[NDIRECT] != 0 ==> t.I[i].addrs[NDIRECT] == s.I[i].addrs[NDIRECT]
    requires forall n: nat :: n < MAXFILE && Addr(s.d, s.I[i], n) != 0 ==> Addr(t.d, t.I[i], n) == Addr(s.d, s.I[i], n)
    requires forall c: nat :: sb.inodestart <= c < sb.bmapstart ==> t.d[c] == s.d[c]
    requires (NoLoose(s.own) ==> NoLoose(t.own)) && KeepsLinks(s.own, t.own)
    ensures Grows(sb, s, t, i)
  {
    hide Inv, Synced, Addr;
    if Synced(sb, s, {i}) { SyncedStep(sb, s, t, i); }
  }

  lemma TakenTwice(own: map<nat, Owner>, b: nat, o: Owner)
    ensures own[b := Loose][b := o] == own[b := o]
  {
  }

  lemma DirectCost(sb: Sb, s: St, i: nat, bn: nat, b: Uint, l: set<nat>)
    requires Inv(sb, s) && i in s.I && bn < NDIRECT && s.I[i].addrs[bn] == 0 && b < sb.size && LowestFree(s.own, b)
    ensures Cost(sb, s, WithAddr(Taken(sb, s, b), i, bn, b, Data(i, bn)), l, l + {Bblock(sb, b), b}, i, 1)
  {
    hide Inv, Allocated, Framed;
    TakenCost(sb, s, b, l);
    LowestTaken(s.own, b, Data(i, bn));
    TakenTwice(s.own, b, Data(i, bn));
  }

  lemma IndirectCost(sb: Sb, s: St, i: nat, b: Uint, l: set<nat>)
    requires Inv(sb, s) && i in s.I && s.I[i].addrs[NDIRECT] == 0 && 0 < b < sb.size && LowestFree(s.own, b)
    ensures Cost(sb, s, WithAddr(Taken(sb, s, b), i, NDIRECT, b, Indirect(i)), l, l + {Bblock(sb, b), b}, i, 0)
  {
    hide Inv, Allocated, Framed;
    TakenCost(sb, s, b, l);
    LowestTaken(s.own, b, Indirect(i));
    TakenTwice(s.own, b, Indirect(i));
  }

  lemma EntryCost(sb: Sb, s: St, i: nat, bn: nat, b: Uint, l: set<nat>)
    requires Inv(sb, s) && i in s.I && NDIRECT <= bn < MAXFILE && b < sb.size && LowestFree(s.own, b)
    requires 0 < s.I[i].addrs[NDIRECT] < |s.d| && |Taken(sb, s, b).d| == |s.d|
    ensures Cost(sb, s, WithEntry(Taken(sb, s, b), i, bn, b), l, l + {Bblock(sb, b), b} + {s.I[i].addrs[NDIRECT] as nat}, i, 1)
  {
    hide Inv, Allocated, PutEntry;
    var ind: nat := s.I[i].addrs[NDIRECT];
    TakenCost(sb, s, b, l);
    IndirectKept(sb, s, b, i);
    LowestTaken(s.own, b, Data(i, bn));
    TakenTwice(s.own, b, Data(i, bn));
    var t, u := Taken(sb, s, b).d, WithEntry(Taken(sb, s, b), i, bn, b).d;
    FramedOne(sb, t, l + {Bblock(sb, b), b}, ind, u[ind]);
    FramedMore(sb, s.d, t, u, l, l + {Bblock(sb, b), b}, l + {Bblock(sb, b), b} + {ind});
  }

  /** Allocating a direct block and linking it. */
  lemma LinkDirectStep(sb: Sb, s: St, i: nat, bn: nat, b: Uint)
    requires Inv(sb, s) && i in s.I && bn < NDIRECT && s.I[i].addrs[bn] == 0 && b < sb.size && LowestFree(s.own, b)
    ensures DiskOk(sb, s.d) && Grows(sb, s, WithAddr(Taken(sb, s, b), i, bn, b, Data(i, bn)), i)
    ensures OneBlock(s, WithAddr(Taken(sb, s, b), i, bn, b, Data(i, bn)), i, bn)
  {
    hide Inv, Entry, Allocated;
    FullShape(sb, s);
    TakenKeeps(sb, s, b, i);
    var t := Taken(sb, s, b);
    LinkDirect(sb, t, i, bn, b);
    LowestTaken(s.own, b, Data(i, bn));
    TakenTwice(s.own, b, Data(i, bn));
    GrowsBy(sb, s, WithAddr(t, i, bn, b, Data(i, bn)), i);
  }

  /**
    What finding block bn of a file logs: nothing if it exists, else the block, its bitmap block,
    and for an indirect one the indirect block and, if that is new as well, its bitmap block.
  */
  ghost function Touch(sb: Sb, bn: nat, before: nat, a: nat, x: Dinode, y: Dinode): set<nat> {
    if before != 0 then {}
    else {a, Bblock(sb, a)} + (if bn < NDIRECT then {} else IndBlocks(sb, x, y))
  }

  lemma TouchSum(sb: Sb, bn: nat, a: nat, x: Dinode, y: Dinode, l0: set<nat>, l1: set<nat>, l: set<nat>)
    requires NDIRECT <= bn && l == l1 + {Bblock(sb, a), a} + {y.addrs[NDIRECT] as nat}
    requires l1 == if x.addrs[NDIRECT] == 0 then l0 + {y.addrs[NDIRECT] as nat, Bblock(sb, y.addrs[NDIRECT])} else l0
    ensures l == l0 + Touch(sb, bn, 0, a, x, y)
  {
  }

  lemma NoTouch(sb: Sb, bn: nat, x: Dinode, l: set<nat>)
    ensures forall b: nat, a: nat, y: Dinode {:trigger Touch(sb, bn, b, a, x, y)} :: b != 0 ==> l == l + Touch(sb, bn, b, a, x, y)
  {
  }

  ghost function IndBlocks(sb: Sb, x: Dinode, y: Dinode): set<nat> {
    {y.addrs[NDIRECT] as nat} + (if x.addrs[NDIRECT] == 0 then {Bblock(sb, y.addrs[NDIRECT])} else {})
  }

  /** From s to t at most block bn of inode i was added. */
  ghost predicate OneBlock(s: St, t: St, i: nat, bn: nat) {
    && i in s.I && i in t.I
    && (forall n: nat {:trigger Addr(t.d, t.I[i], n)} :: n < MAXFILE && n != bn ==> Addr(t.d, t.I[i], n) == Addr(s.d, s.I[i], n))
    && (bn < NDIRECT ==> t.I[i].addrs[NDIRECT] == s.I[i].addrs[NDIRECT])
  }

  lemma OneBlockSame(s: St, i: nat, bn: nat)
    requires i in s.I
    ensures OneBlock(s, s, i, bn)
  {
  }

  lemma SameIsOne(s: St, t: St, i: nat, bn: nat)
    requires i in s.I && i in t.I && SameAddrs(s, t, i) && NDIRECT <= bn
    ensures OneBlock(s, t, i, bn)
  {
    hide Addr;
  }

  lemma OneBlockAfter(s: St, t: St, u: St, i: nat, bn: nat)
    requires i in s.I && i in t.I && SameAddrs(s, t, i) && OneBlock(t, u, i, bn) && NDIRECT <= bn
    ensures OneBlock(s, u, i, bn)
  {
    hide Addr;
    forall n: nat | n < MAXFILE && n != bn ensures Addr(u.d, u.I[i], n) == Addr(s.d, s.I[i], n) {
      assert Addr(t.d, t.I[i], n) == Addr(s.d, s.I[i], n);
    }
  }

  ghost predicate SameAddrs(s: St, t: St, i: nat)
    requires i in s.I && i in t.I
  {
    forall n: nat {:trigger Addr(t.d, t.I[i], n)} :: n < MAXFILE ==> Addr(t.d, t.I[i], n) == Addr(s.d, s.I[i], n)
  }

  lemma SameAddr(s: St, t: St, i: nat, n: nat)
    requires i in s.I && i in t.I && SameAddrs(s, t, i) && n < MAXFILE
    ensures Addr(t.d, t.I[i], n) == Addr(s.d, s.I[i], n)
  {
  }

  lemma IndirectAddr(d: Disk, x: Dinode, bn: nat)
    requires NDIRECT <= bn < MAXFILE
    ensures bn - NDIRECT < NINDIRECT && |x.addrs| == NDIRECT + 1
    ensures 0 < x.addrs[NDIRECT] < |d| ==> Addr(d, x, bn) == Entry(d[x.addrs[NDIRECT]], bn - NDIRECT)
    ensures x.addrs[NDIRECT] == 0 ==> Addr(d, x, bn) == 0
  {
  }

  lemma IndirectInRange(sb: Sb, s: St, i: nat)
    requires Inv(sb, s) && i in s.I && s.I[i].addrs[NDIRECT] != 0
    ensures s.I[i].addrs[NDIRECT] < |s.d| && SameAddrs(s, s, i)
  {
    hide BitsOk;
    assert InodeOk(s, i) && RoleOk(sb, s, s.I[i].addrs[NDIRECT]);
  }

  lemma GrowsInv(sb: Sb, s: St, t: St, i: nat)
    requires Grows(sb, s, t, i)
    ensures Inv(sb, t)
  {
  }

  /** Allocating an indirect block and linking it. */
  lemma LinkIndirectStep(sb: Sb, s: St, i: nat, b: Uint)
    requires Inv(sb, s) && i in s.I && s.I[i].addrs[NDIRECT] == 0 && b < sb.size && LowestFree(s.own, b)
    ensures DiskOk(sb, s.d) && b < |s.d| && Grows(sb, s, WithAddr(Taken(sb, s, b), i, NDIRECT, b, Indirect(i)), i)
    ensures |Taken(sb, s, b).d| == |s.d| && SameAddrs(s, WithAddr(Taken(sb, s, b), i, NDIRECT, b, Indirect(i)), i)
  {
    hide Inv, Entry, Allocated, InodeOk;
    FullShape(sb, s);
    TakenKeeps(sb, s, b, i);
    var t := Taken(sb, s, b);
    LinkIndirect(sb, t, i, b);
    LinkIndirectInode(sb, t, i, b);
    LowestTaken(s.own, b, Indirect(i));
    TakenTwice(s.own, b, Indirect(i));
    GrowsBy(sb, s, WithAddr(t, i, NDIRECT, b, Indirect(i)), i);
  }

  /** Allocating a block and listing it in the indirect block. */
  lemma LinkEntryStep(sb: Sb, s: St, i: nat, bn: nat, b: Uint)
    requires Inv(sb, s) && i in s.I && NDIRECT <= bn < MAXFILE && b < sb.size && LowestFree(s.own, b)
    requires 0 < s.I[i].addrs[NDIRECT] < |s.d| && Addr(s.d, s.I[i], bn) == 0
    ensures DiskOk(sb, s.d) && |Taken(sb, s, b).d| == |s.d|
    ensures Grows(sb, s, WithEntry(Taken(sb, s, b), i, bn, b), i)
    ensures Addr(WithEntry(Taken(sb, s, b), i, bn, b).d, s.I[i], bn) == b
    ensures OneBlock(s, WithEntry(Taken(sb, s, b), i, bn, b), i, bn)
    ensures Taken(sb, s, b).d[s.I[i].addrs[NDIRECT]] == s.d[s.I[i].addrs[NDIRECT]]
  {
    hide Inv, Entry, PutEntry, Allocated, InodeOk;
    FullShape(sb, s);
    TakenKeeps(sb, s, b, i);
    var t := Taken(sb, s, b);
    LinkEntry(sb, t, i, bn, b);
    LinkEntryInode(sb, t, i, bn, b);
    IndirectKept(sb, s, b, i);
    LowestTaken(s.own, b, Data(i, bn));
    TakenTwice(s.own, b, Data(i, bn));
    GrowsBy(sb, s, WithEntry(t, i, bn, b), i);
  }

  /** Allocation leaves an indirect block alone, and it is no inode block. */
  lemma IndirectKept(sb: Sb, s: St, b: nat, i: nat)
    requires Inv(sb, s) && i in s.I && b < sb.size && b !in s.own && 0 < s.I[i].addrs[NDIRECT] < |s.d|
    ensures DiskOk(sb, s.d) && |Taken(sb, s, b).d| == |s.d| && Nmeta(sb) <= s.I[i].addrs[NDIRECT]
    ensures Taken(sb, s, b).d[s.I[i].addrs[NDIRECT]] == s.d[s.I[i].addrs[NDIRECT]]
  {
    hide BitsOk, PutMapBit;
    assert InodeOk(s, i) && RoleOk(sb, s, s.I[i].addrs[NDIRECT]);
    assert Bblock(sb, b) < Nmeta(sb);
  }

  function Min(a: nat, b: nat): nat { if a < b then a else b }

  /** The contents of file i. */
  ghost function File(s: St, i: nat): seq<Byte> {
    if i in s.I && i in s.F && s.I[i].size <= |s.F[i]| then s.F[i][..s.I[i].size] else []
  }

  /** Up to n bytes of f from off on; none if off is beyond the end or off + n does not fit in 32 bits. */
  function Slice(f: seq<Byte>, off: nat, n: nat): (r: seq<Byte>)
    ensures |r| == if off > |f| || off + n >= 0x1_0000_0000 then 0 else if off + n > |f| then |f| - off else n
    ensures forall k :: 0 <= k < |r| ==> r[k] == f[off + k]
  {
    if off > |f| || off + n >= 0x1_0000_0000 then [] else f[off..Min(off + n, |f|)]
  }

  lemma InodeBlock(sb: Sb, s: St, i: nat)
    requires Inv(sb, s) && i in s.I
    ensures DiskOk(sb, s.d) && i < sb.ninodes && Iblock(sb, i) < |s.d|
  {
    hide BitsOk, InodesOk, RolesOk;
  }

  lemma FileIs(sb: Sb, s: St, i: nat)
    requires Inv(sb, s) && i in s.I
    ensures i in s.F && |s.F[i]| == MAXBYTES && s.I[i].size <= MAXBYTES && |File(s, i)| == s.I[i].size
    ensures File(s, i) == s.F[i][..s.I[i].size]
  {
    hide BitsOk, RolesOk;
    assert InodeOk(s, i);
  }

  /** A byte inside the file is in one of its blocks; without holes that block exists. */
  lemma ReadReady(sb: Sb, s: St, t: St, i: nat, o: nat)
    requires Grows(sb, s, t, i) && o < s.I[i].size && s.I[i].size <= MAXBYTES
    ensures Inv(sb, t) && o / BSIZE < MAXFILE
    ensures Covered(s.d, s.I[i], s.I[i].size) && t == s ==> Addr(t.d, t.I[i], o / BSIZE) != 0
  {
    hide Inv, Synced;
  }

  lemma ChunkRead(sb: Sb, s: St, t: St, i: nat, o: nat, m: nat, addr: nat)
    requires Grows(sb, s, t, i) && o % BSIZE + m <= BSIZE && o + m <= s.I[i].size <= MAXBYTES
    requires o / BSIZE < MAXFILE && addr == Addr(t.d, t.I[i], o / BSIZE) && addr != 0
    ensures addr < |t.d| && t.I[i].size == s.I[i].size
    ensures i in s.F && |s.F[i]| == MAXBYTES && t.d[addr][o % BSIZE..o % BSIZE + m] == s.F[i][..s.I[i].size][o..o + m]
  {
    hide BitsOk, Synced, Entry, NoLoose;
    assert InodeOk(t, i) && LinkOk(t.d, t.own, t.I[i], i, o / BSIZE) && RoleOk(sb, t, addr);
    var got, want := t.d[addr][o % BSIZE..o % BSIZE + m], s.F[i][..s.I[i].size][o..o + m];
    forall k | 0 <= k < m ensures got[k] == want[k] {
      assert (o + k) / BSIZE == o / BSIZE && (o + k) % BSIZE == o % BSIZE + k;
      assert ByteAt(t.d, t.I[i], o + k) == t.F[i][o + k];
      assert want[k] == t.F[i][o + k];
    }
  }

  /** Inode i holds f now, and may have got more blocks; no other inode changed. */
  ghost predicate Wrote(sb: Sb, s: St, t: St, i: nat, f: seq<Byte>) {
    t.F == s.F[i := f] && Grows(sb, s.(F := t.F), t, i)
  }

  /** Writing a data block takes no block. */
  lemma DataCost(sb: Sb, s0: St, s: St, l0: set<nat>, l: set<nat>, i: nat, k: nat, b: nat, x: Block,
                 f: map<nat, seq<Byte>>)
    requires Cost(sb, s0, s, l0, l, i, k) && Inv(sb, s) && Nmeta(sb) <= b < |s.d|
    ensures Cost(sb, s0, s.(d := s.d[b := x], F := f), l0, l + {b}, i, k)
  {
    hide BitsOk, RolesOk, InodesOk, Framed;
    FramedOne(sb, s.d, l, b, x);
    FramedMore(sb, s0.d, s.d, s.d[b := x], l0, l, l + {b});
  }

  lemma DataThere(sb: Sb, s: St, i: nat, bn: nat, b: nat)
    requires Inv(sb, s) && i in s.I && bn < MAXFILE && b != 0 && Addr(s.d, s.I[i], bn) == b
    ensures Nmeta(sb) <= b < |s.d| && i in s.F && |s.F[i]| == MAXBYTES
  {
    hide BitsOk, Entry;
    assert InodeOk(s, i) && LinkOk(s.d, s.own, s.I[i], i, bn) && RoleOk(sb, s, b);
  }

  /** writei() refuses to leave a hole, to wrap around, or to exceed the largest file. */
  predicate Rejected(off: nat, n: nat, size: nat) { off > size || off + n >= 0x1_0000_0000 || off + n > MAXBYTES }

  /** The number of blocks that n bytes from off on fall into. */
  function Touched(off: nat, n: nat): nat { if n == 0 then 0 else (off + n - 1) / BSIZE - off / BSIZE + 1 }

  /** The file f with src written at off <= |f|. */
  function Overwrite(f: seq<Byte>, off: nat, src: seq<Byte>): (r: seq<Byte>)
    requires off <= |f|
    ensures |r| == if off + |src| > |f| then off + |src| else |f|
    ensures forall k :: 0 <= k < |r| ==> r[k] == if off <= k < off + |src| then src[k - off] else f[k]
  {
    f[..off] + src + f[Min(off + |src|, |f|)..]
  }

  /** From s to t, src was written into file i at off; no other inode and no other file changed. */
  ghost predicate Written(s: St, t: St, i: nat, off: nat, src: seq<Byte>) {
    && i in s.I && t.I.Keys == s.I.Keys && t.F.Keys == s.F.Keys
    && (forall j :: j in s.I && j != i ==> t.I[j] == s.I[j] && File(t, j) == File(s, j))
    && t.I[i].(addrs := s.I[i].addrs, size := s.I[i].size) == s.I[i]
    && off <= |File(s, i)| && File(t, i) == Overwrite(File(s, i), off, src)
  }

  /** Changing part of a block of the file changes that part of the file. */
  lemma WriteStep(sb: Sb, s0: St, s: St, i: nat, o: nat, b: nat, chunk: seq<Byte>)
    requires Grows(sb, s0, s, i) && i in s.I && o % BSIZE + |chunk| <= BSIZE && o + |chunk| <= MAXBYTES
    requires o / BSIZE < MAXFILE && b != 0 && Addr(s.d, s.I[i], o / BSIZE) == b
    requires b < |s.d| && i in s.F && |s.F[i]| == MAXBYTES
    ensures i in s0.F && |s0.F[i]| == MAXBYTES
    ensures var t := s.(d := s.d[b := Splice(s.d[b], o % BSIZE, chunk)], F := s.F[i := Splice(s.F[i], o, chunk)]);
            && Wrote(sb, s0, t, i, Splice(s0.F[i], o, chunk)) && Addr(t.d, t.I[i], o / BSIZE) == b
            && (OneBlock(s0, s, i, o / BSIZE) ==> OneBlock(s0, t, i, o / BSIZE))
  {
    hide Inv, Addr, Splice, Synced, NoLoose, Grows;
    var bn, blk := o / BSIZE, Splice(s.d[b], o % BSIZE, chunk);
    GrowsInv(sb, s0, s, i);
    GrowsSameFile(sb, s0, s, i);
    WriteData(sb, s, i, bn, b, blk);
    WriteDataInode(sb, s, i, bn, b, blk);
    DataThere(sb, s, i, bn, b);
    ChunkSplice(sb, s, i, o, b, chunk);
    WroteBy(sb, s0, s, WithData(s, i, bn, b, blk), i, Splice(s0.F[i], o, chunk));
  }

  lemma GrowsSameFile(sb: Sb, s: St, t: St, i: nat)
    requires Grows(sb, s, t, i)
    ensures t.F == s.F && i in s.I && i in t.I && i in t.F && |t.F[i]| == MAXBYTES
  {
    hide BitsOk, RolesOk, Synced, NoLoose;
    assert InodeOk(t, i);
  }

  /** Splicing the block and splicing the file agree. */
  lemma ChunkSplice(sb: Sb, s: St, i: nat, o: nat, b: nat, chunk: seq<Byte>)
    requires Inv(sb, s) && i in s.I && o % BSIZE + |chunk| <= BSIZE && o + |chunk| <= MAXBYTES
    requires o / BSIZE < MAXFILE && b != 0 && Addr(s.d, s.I[i], o / BSIZE) == b
    requires b < |s.d| && i in s.F && |s.F[i]| == MAXBYTES
    ensures Splice(s.F[i], o / BSIZE * BSIZE, Splice(s.d[b], o % BSIZE, chunk)) == Splice(s.F[i], o, chunk)
  {
    hide BitsOk, RolesOk, Addr;
    assert InodeOk(s, i);
    var base, blk := o / BSIZE * BSIZE, Splice(s.d[b], o % BSIZE, chunk);
    var x, y := Splice(s.F[i], base, blk), Splice(s.F[i], o, chunk);
    forall k | 0 <= k < MAXBYTES ensures x[k] == y[k] {
      if base <= k < base + BSIZE {
        assert k / BSIZE == o / BSIZE && k % BSIZE == k - base;
        assert ByteAt(s.d, s.I[i], k) == s.F[i][k];
      }
    }
  }

  ghost predicate SameInodeBlocks(sb: Sb, d: Disk, e: Disk) {
    |e| == |d| && forall c: nat :: sb.inodestart <= c < sb.bmapstart && c < |d| ==> e[c] == d[c]
  }

  lemma WroteBy(sb: Sb, s0: St, s: St, t: St, i: nat, f: seq<Byte>)
    requires Grows(sb, s0, s, i) && Inv(sb, t) && t.I == s.I && t.own == s.own && i in s.F && t.F == s.F[i := f]
    requires forall n: nat :: n < MAXFILE ==> Addr(t.d, t.I[i], n) == Addr(s.d, s.I[i], n)
    requires SameInodeBlocks(sb, s.d, t.d)
    ensures Wrote(sb, s0, t, i, f)
  {
    hide Inv, Addr, NoLoose;
    if Synced(sb, s0.(F := t.F), {i}) { WroteSynced(sb, s0, s, t, i); }
  }

  lemma WroteSynced(sb: Sb, s0: St, s: St, t: St, i: nat)
    requires Grows(sb, s0, s, i) && Inv(sb, t) && t.I == s.I && t.F.Keys == s.F.Keys
    requires SameInodeBlocks(sb, s.d, t.d)
    requires Synced(sb, s0.(F := t.F), {i})
    ensures Synced(sb, t, {i})
  {
    hide BitsOk, RolesOk, InodesOk, Addr, NoLoose;
    assert Synced(sb, s0, {i});
    SyncedStep(sb, s, t, i);
  }

  // ----- the loop of writei() -----

  /** tot bytes of src have been written. */
  ghost predicate Writing(sb: Sb, s0: St, s: St, i: nat, off: nat, src: seq<Byte>, tot: nat) {
    && i in s0.I && i in s0.F && |s0.F[i]| == MAXBYTES && tot <= |src| && off + |src| <= MAXBYTES && off <= s0.I[i].size
    && s0.I[i].size <= MAXBYTES && s0.F.Keys == s0.I.Keys && i in s.I
    && Wrote(sb, s0, s, i, Splice(s0.F[i], off, src[..tot]))
    && (Covered(s0.d, s0.I[i], s0.I[i].size) ==>
          Covered(s.d, s.I[i], s0.I[i].size) && Covered(s.d, s.I[i], off + tot))
  }

  lemma WritingNone(sb: Sb, s: St, i: nat, off: nat, src: seq<Byte>)
    requires Inv(sb, s) && i in s.I && off <= s.I[i].size && off + |src| <= MAXBYTES
    ensures Writing(sb, s, s, i, off, src, 0)
  {
    hide BitsOk, RolesOk, Addr;
    assert InodeOk(s, i);
    assert Splice(s.F[i], off, src[..0]) == s.F[i];
    assert s.F[i := s.F[i]] == s.F;
    GrowsSame(sb, s, i);
  }

  lemma WritingReady(sb: Sb, s0: St, s: St, i: nat, off: nat, src: seq<Byte>, tot: nat)
    requires Writing(sb, s0, s, i, off, src, tot) && tot < |src|
    ensures Inv(sb, s) && (off + tot) / BSIZE < MAXFILE && i in s.F && |s.F[i]| == MAXBYTES
  {
    hide Inv, Synced, NoLoose, Splice, Covered;
    assert s.F[i] == Splice(s0.F[i], off, src[..tot]);
  }

  lemma WritingStep(sb: Sb, s0: St, s: St, t: St, i: nat, off: nat, src: seq<Byte>, tot: nat, m: nat)
    requires Writing(sb, s0, s, i, off, src, tot) && 0 < m && tot + m <= |src| && i in t.I
    requires (off + tot) % BSIZE + m <= BSIZE && (off + tot) / BSIZE < MAXFILE && i in s.F && |s.F[i]| == MAXBYTES
    requires Wrote(sb, s, t, i, Splice(s.F[i], off + tot, src[tot..tot + m]))
    requires Addr(t.d, t.I[i], (off + tot) / BSIZE) != 0
    ensures Writing(sb, s0, t, i, off, src, tot + m)
  {
    hide Inv, Synced, NoLoose, Splice, Covered, Addr;
    var f := Splice(s0.F[i], off, src[..tot + m]);
    SpliceTwice(s0.F[i], off, src, tot, m);
    assert t.F == s0.F[i := f];
    WroteTwice(sb, s0, s, t, i);
    if Covered(s0.d, s0.I[i], s0.I[i].size) { CoverMore(sb, s, t, i, s0.I[i].size, off + tot, m); }
  }

  lemma SpliceTwice(f: seq<Byte>, off: nat, src: seq<Byte>, tot: nat, m: nat)
    requires off + |src| <= |f| && tot + m <= |src|
    ensures Splice(Splice(f, off, src[..tot]), off + tot, src[tot..tot + m]) == Splice(f, off, src[..tot + m])
  {
  }

  lemma WroteTwice(sb: Sb, s0: St, s: St, t: St, i: nat)
    requires Grows(sb, s0.(F := s.F), s, i) && Grows(sb, s.(F := t.F), t, i) && t.F.Keys == s.F.Keys
    ensures Grows(sb, s0.(F := t.F), t, i)
  {
    hide Inv, NoLoose, Addr;
    if Synced(sb, s0.(F := t.F), {i}) {
      assert Synced(sb, s0.(F := s.F), {i});
      assert Synced(sb, s.(F := t.F), {i});
    }
    forall n: nat | n < MAXFILE && Addr(s0.d, s0.I[i], n) != 0 ensures Addr(t.d, t.I[i], n) == Addr(s0.d, s0.I[i], n) {
      assert Addr(s.d, s.I[i], n) == Addr(s0.d, s0.I[i], n);
    }
    LowestMore(s0.own, s.own, t.own);
  }

  /** A write of part of one block extends the part of the file without holes. */
  lemma CoverMore(sb: Sb, s: St, t: St, i: nat, size: nat, o: nat, m: nat)
    requires Grows(sb, s.(F := t.F), t, i) && o % BSIZE + m <= BSIZE && o / BSIZE < MAXFILE
    requires Addr(t.d, t.I[i], o / BSIZE) != 0 && Covered(s.d, s.I[i], size) && Covered(s.d, s.I[i], o)
    ensures Covered(t.d, t.I[i], size) && Covered(t.d, t.I[i], o + m)
  {
    hide Inv, NoLoose, Synced, Addr;
    forall n: nat | n < MAXFILE && n * BSIZE < size ensures Addr(t.d, t.I[i], n) != 0 {
      assert Addr(s.d, s.I[i], n) != 0;
    }
    forall n: nat | n < MAXFILE && n * BSIZE < o + m ensures Addr(t.d, t.I[i], n) != 0 {
      if n != o / BSIZE { assert n * BSIZE < o; assert Addr(s.d, s.I[i], n) != 0; }
    }
  }

  lemma WritingDone(sb: Sb, s0: St, s: St, i: nat, off: nat, src: seq<Byte>)
    requires Writing(sb, s0, s, i, off, src, |src|)
    ensures Inv(sb, s) && i in s.I && s.I[i].size == s0.I[i].size && off + |src| < 0x1_0000_0000
  {
    hide Inv, NoLoose, Synced, Addr, Covered;
  }

  /** Extending the size completes the write. */
  lemma WritingSized(sb: Sb, s0: St, s: St, t: St, i: nat, off: nat, src: seq<Byte>)
    requires Writing(sb, s0, s, i, off, src, |src|) && Synced(sb, s0, {i}) && i in s.I
    requires var x := if off + |src| > s.I[i].size then s.I[i].(size := off + |src|) else s.I[i];
             t == s.(I := s.I[i := x])
    ensures Inv(sb, t) && Synced(sb, t, {i}) && Written(s0, t, i, off, src)
    ensures (NoLoose(s0.own) ==> NoLoose(t.own)) && KeepsLinks(s0.own, t.own)
    ensures Covered(s0.d, s0.I[i], s0.I[i].size) ==> Covered(t.d, t.I[i], t.I[i].size)
  {
    hide Inv, NoLoose, Synced, Splice, File;
    assert src[..|src|] == src;
    FieldsOk(sb, s, i, t.I[i]);
    SizedSynced(sb, s0, s, t, i);
    SizedFile(s0, t, i, off, src);
    SizedOthers(s0, t, i);
    SizedCovered(s0, s, t, i, off + |src|);
  }

  lemma SizedSynced(sb: Sb, s0: St, s: St, t: St, i: nat)
    requires Grows(sb, s0.(F := s.F), s, i) && Synced(sb, s0, {i}) && s.F.Keys == s0.F.Keys && i in s.I
    requires i in t.I && t == s.(I := s.I[i := t.I[i]])
    ensures Synced(sb, t, {i})
  {
    hide Inv, NoLoose, Addr;
    assert Synced(sb, s0.(F := s.F), {i});
  }

  lemma SizedFile(s0: St, t: St, i: nat, off: nat, src: seq<Byte>)
    requires i in s0.I && i in s0.F && |s0.F[i]| == MAXBYTES && i in t.I && off <= s0.I[i].size <= MAXBYTES
    requires off + |src| <= MAXBYTES && i in t.F && t.F[i] == Splice(s0.F[i], off, src)
    requires t.I[i].size == if off + |src| > s0.I[i].size then off + |src| else s0.I[i].size
    ensures off <= |File(s0, i)| && File(t, i) == Overwrite(File(s0, i), off, src)
  {
  }

  lemma SizedOthers(s0: St, t: St, i: nat)
    requires i in s0.I && i in t.I && i in t.F && t.I == s0.I[i := t.I[i]] && t.F == s0.F[i := t.F[i]]
    ensures forall j :: j in s0.I && j != i ==> t.I[j] == s0.I[j] && File(t, j) == File(s0, j)
  {
  }

  lemma SizedCovered(s0: St, s: St, t: St, i: nat, e: nat)
    requires i in s0.I && i in s.I && i in t.I && t.d == s.d && t.I[i].addrs == s.I[i].addrs
    requires Covered(s0.d, s0.I[i], s0.I[i].size) ==> Covered(s.d, s.I[i], s0.I[i].size) && Covered(s.d, s.I[i], e)
    requires t.I[i].size == if e > s0.I[i].size then e else s0.I[i].size
    ensures Covered(s0.d, s0.I[i], s0.I[i].size) ==> Covered(t.d, t.I[i], t.I[i].size)
  {
    hide Entry;
    forall n: nat | n < MAXFILE ensures Addr(t.d, t.I[i], n) == Addr(s.d, s.I[i], n) {}
  }

  /** Writing the inode back leaves the files alone. */
  lemma WrittenSynced(sb: Sb, s0: St, s: St, i: nat, off: nat, src: seq<Byte>)
    requires Inv(sb, s) && i in s.I && Written(s0, s, i, off, src)
    ensures Written(s0, s.(d := SetIno(sb, s.d, i, s.I[i])), i, off, src)
    ensures Covered(s.d, s.I[i], s.I[i].size) ==>
              Covered(SetIno(sb, s.d, i, s.I[i]), s.I[i], s.I[i].size)
  {
    hide BitsOk, PutInode;
    var t := s.(d := SetIno(sb, s.d, i, s.I[i]));
    forall j | j in s.I ensures File(t, j) == File(s, j) {}
    SyncAddrs(sb, s, i);
  }

  /** The new size and the inode written back leave the block map as it was. */
  lemma SizedAddrs(sb: Sb, s: St, t: St, i: nat)
    requires Inv(sb, t) && i in s.I && i in t.I && t.d == s.d && t.I[i].addrs == s.I[i].addrs
    ensures DiskOk(sb, t.d) && i < sb.ninodes
    ensures forall n: nat :: n < MAXFILE ==> Addr(SetIno(sb, t.d, i, t.I[i]), t.I[i], n) == Addr(s.d, s.I[i], n)
  {
    hide Entry, PutInode;
    InodeBlock(sb, t, i);
    SyncAddrs(sb, t, i);
  }

  lemma SyncAddrs(sb: Sb, s: St, i: nat)
    requires Inv(sb, s) && i in s.I
    ensures forall n: nat :: n < MAXFILE ==> Addr(SetIno(sb, s.d, i, s.I[i]), s.I[i], n) == Addr(s.d, s.I[i], n)
  {
    hide BitsOk, PutInode, Entry;
    assert InodeOk(s, i);
    assert s.I[i].addrs[NDIRECT] != 0 ==> RoleOk(sb, s, s.I[i].addrs[NDIRECT]);
  }

  // ----- what an operation logs -----

  /** What a write to block n logs: the block, and what finding it took. */
  ghost function LogsAt(sb: Sb, s0: St, s: St, i: nat, n: nat): set<nat>
    requires i in s0.I && i in s.I && n < MAXFILE
  {
    var a := Addr(s.d, s.I[i], n);
    {a} + Touch(sb, n, Addr(s0.d, s0.I[i], n), a, s0.I[i], s.I[i])
  }

  /** The same for the blocks from lo up to hi. */
  ghost function Logs(sb: Sb, s0: St, s: St, i: nat, lo: nat, hi: nat): set<nat>
    requires i in s0.I && i in s.I && lo <= hi <= MAXFILE
  {
    if lo == hi then {} else Logs(sb, s0, s, i, lo, hi - 1) + LogsAt(sb, s0, s, i, hi - 1)
  }

  /** Blocks lo up to hi have been written, no other block was added, and this is what was logged. */
  ghost predicate Spent(sb: Sb, s0: St, s: St, i: nat, lo: nat, hi: nat, l0: set<nat>, l: set<nat>) {
    && i in s0.I && i in s.I && lo <= hi <= MAXFILE && l == l0 + Logs(sb, s0, s, i, lo, hi)
    && (forall n: nat {:trigger Addr(s.d, s.I[i], n)} :: n < MAXFILE ==>
          if lo <= n < hi then Addr(s.d, s.I[i], n) != 0 else Addr(s.d, s.I[i], n) == Addr(s0.d, s0.I[i], n))
    && (s.I[i].addrs[NDIRECT] == s0.I[i].addrs[NDIRECT]
        || (s.I[i].addrs[NDIRECT] != 0 && IndBlocks(sb, s0.I[i], s.I[i]) <= Logs(sb, s0, s, i, lo, hi)))
    && (hi <= NDIRECT ==> s.I[i].addrs[NDIRECT] == s0.I[i].addrs[NDIRECT])
  }

  lemma SpentNone(sb: Sb, s: St, i: nat, off: nat, l: set<nat>)
    requires i in s.I && off <= MAXBYTES
    ensures Spent(sb, s, s, i, off / BSIZE, off / BSIZE + Touched(off, 0), l, l)
  {
  }

  /** Later blocks leave what earlier ones logged as it was. */
  lemma {:induction false} LogsKept(sb: Sb, s0: St, s: St, t: St, i: nat, lo: nat, hi: nat)
    requires i in s0.I && i in s.I && i in t.I && lo <= hi <= MAXFILE
    requires forall n: nat :: lo <= n < hi ==> Addr(s.d, s.I[i], n) != 0 && Addr(t.d, t.I[i], n) == Addr(s.d, s.I[i], n)
    requires s.I[i].addrs[NDIRECT] != 0 ==> t.I[i].addrs[NDIRECT] == s.I[i].addrs[NDIRECT]
    ensures Logs(sb, s0, t, i, lo, hi) == Logs(sb, s0, s, i, lo, hi)
    decreases hi - lo
  {
    hide Entry;
    if lo < hi {
      LogsKept(sb, s0, s, t, i, lo, hi - 1);
      assert Addr(s.d, s.I[i], hi - 1) != 0;
    }
  }

  lemma SpentStep(sb: Sb, s0: St, s: St, t: St, i: nat, lo: nat, n: nat, l0: set<nat>, l: set<nat>, l': set<nat>, f: seq<Byte>)
    requires Spent(sb, s0, s, i, lo, n, l0, l) && n < MAXFILE && Wrote(sb, s, t, i, f) && OneBlock(s, t, i, n)
    requires Addr(t.d, t.I[i], n) != 0
    requires var a := Addr(t.d, t.I[i], n);
             l' == l + Touch(sb, n, Addr(s.d, s.I[i], n), a, s.I[i], t.I[i]) + {a}
    ensures Spent(sb, s0, t, i, lo, n + 1, l0, l')
  {
    hide Inv, Synced, NoLoose, KeepsLinks, Addr, Logs;
    forall k: nat | lo <= k < n ensures Addr(s.d, s.I[i], k) != 0 && Addr(t.d, t.I[i], k) == Addr(s.d, s.I[i], k) {}
    LogsKept(sb, s0, s, t, i, lo, n);
    assert Addr(s.d, s.I[i], n) == Addr(s0.d, s0.I[i], n);
    LogsNext(sb, s0, s, t, i, lo, n, l0, l, l');
    IndirectNeeded(t.d, t.I[i], n);
  }

  /** A block beyond the direct ones needs the indirect block. */
  lemma IndirectNeeded(d: Disk, x: Dinode, n: nat)
    requires n < MAXFILE && Addr(d, x, n) != 0
    ensures n >= NDIRECT ==> x.addrs[NDIRECT] != 0
  {
  }

  lemma LogsNext(sb: Sb, s0: St, s: St, t: St, i: nat, lo: nat, n: nat, l0: set<nat>, l: set<nat>, l': set<nat>)
    requires Spent(sb, s0, s, i, lo, n, l0, l) && n < MAXFILE && OneBlock(s, t, i, n) && i in t.I
    requires Logs(sb, s0, t, i, lo, n) == Logs(sb, s0, s, i, lo, n)
    requires s.I[i].addrs[NDIRECT] != 0 ==> t.I[i].addrs[NDIRECT] == s.I[i].addrs[NDIRECT]
    requires Addr(s.d, s.I[i], n) == Addr(s0.d, s0.I[i], n)
    requires var a := Addr(t.d, t.I[i], n);
             l' == l + Touch(sb, n, Addr(s.d, s.I[i], n), a, s.I[i], t.I[i]) + {a}
    ensures l' == l0 + Logs(sb, s0, t, i, lo, n + 1)
    ensures t.I[i].addrs[NDIRECT] == s0.I[i].addrs[NDIRECT] || IndBlocks(sb, s0.I[i], t.I[i]) <= Logs(sb, s0, t, i, lo, n + 1)
  {
    hide Addr;
    assert Logs(sb, s0, t, i, lo, n + 1) == Logs(sb, s0, t, i, lo, n) + LogsAt(sb, s0, t, i, n);
    if Addr(s.d, s.I[i], n) != 0 { IndirectNeeded(s.d, s.I[i], n); }
  }

  /** How many blocks from lo up to hi the file did not have. */
  ghost function NewCount(s0: St, i: nat, lo: nat, hi: nat): (k: nat)
    requires i in s0.I && lo <= hi <= MAXFILE
    ensures k <= hi - lo
  {
    if lo == hi then 0 else NewCount(s0, i, lo, hi - 1) + if Addr(s0.d, s0.I[i], hi - 1) == 0 then 1 else 0
  }

  /** Writing the blocks lo up to hi has taken exactly the blocks the file did not have. */
  ghost predicate Paid(sb: Sb, s0: St, s: St, l0: set<nat>, l: set<nat>, i: nat, lo: nat, hi: nat) {
    i in s0.I && lo <= hi <= MAXFILE && Cost(sb, s0, s, l0, l, i, NewCount(s0, i, lo, hi))
  }

  lemma PaidNone(sb: Sb, s: St, i: nat, off: nat, l: set<nat>)
    requires i in s.I && off <= MAXBYTES
    ensures Paid(sb, s, s, l, l, i, off / BSIZE, off / BSIZE + Touched(off, 0))
  {
  }

  lemma PaidStep(sb: Sb, s0: St, s: St, t: St, l0: set<nat>, l: set<nat>, l': set<nat>, i: nat, lo: nat, n: nat)
    requires Paid(sb, s0, s, l0, l, i, lo, n) && Spent(sb, s0, s, i, lo, n, l0, l) && n < MAXFILE && i in s.I
    requires Cost(sb, s, t, l, l', i, if Addr(s.d, s.I[i], n) == 0 then 1 else 0)
    ensures Paid(sb, s0, t, l0, l', i, lo, n + 1)
  {
    hide Cost, Addr, Logs, IndBlocks;
    assert Addr(s.d, s.I[i], n) == Addr(s0.d, s0.I[i], n);
    CostMore(sb, s0, s, t, l0, l, l', i, NewCount(s0, i, lo, n), if Addr(s.d, s.I[i], n) == 0 then 1 else 0);
  }

  /** The blocks that writing the blocks lo up to hi takes: those the file does not have, and its indirect block. */
  ghost function Need(s0: St, i: nat, lo: nat, hi: nat): nat
    requires i in s0.I && lo <= hi <= MAXFILE
  {
    NewCount(s0, i, lo, hi) + if lo < hi && NDIRECT < hi && s0.I[i].addrs[NDIRECT] == 0 then 1 else 0
  }

  lemma {:induction false} NewCountMore(s0: St, i: nat, lo: nat, n: nat, hi: nat)
    requires i in s0.I && lo <= n <= hi <= MAXFILE
    ensures NewCount(s0, i, lo, n) <= NewCount(s0, i, lo, hi)
  {
    if n < hi { NewCountMore(s0, i, lo, n, hi - 1); }
  }

  lemma TouchedFits(off: nat, n: nat)
    requires off + n <= MAXBYTES
    ensures off / BSIZE + Touched(off, n) <= MAXFILE
  {
  }

  /** A write that finds no free block needed more than there were. */
  lemma PaidFails(sb: Sb, s0: St, s: St, t: St, l0: set<nat>, l: set<nat>, l': set<nat>, i: nat, lo: nat, n: nat, hi: nat)
    requires Paid(sb, s0, s, l0, l, i, lo, n) && Spent(sb, s0, s, i, lo, n, l0, l) && Cost(sb, s, t, l, l', i, 0)
    requires Inv(sb, t) && Full(sb, t.d) && n < hi <= MAXFILE && Addr(s.d, s.I[i], n) == 0
    requires Grows(sb, s, t, i) && (n < NDIRECT ==> t == s)
    ensures |s0.own| + Need(s0, i, lo, hi) > sb.size
  {
    hide Inv, Framed, Full, Logs, KeepsLinks, Synced, Addr;
    CostMore(sb, s0, s, t, l0, l, l', i, NewCount(s0, i, lo, n), 0);
    FullCount(sb, t);
    assert Addr(s.d, s.I[i], n) == Addr(s0.d, s0.I[i], n);
    NewCountMore(s0, i, lo, n + 1, hi);
  }

  /** A write that succeeds took what it needed. */
  lemma NeedPaid(sb: Sb, s0: St, s: St, l0: set<nat>, l: set<nat>, i: nat, lo: nat, hi: nat)
    requires Paid(sb, s0, s, l0, l, i, lo, hi) && Spent(sb, s0, s, i, lo, hi, l0, l) && Inv(sb, s)
    ensures |s.own| == |s0.own| + Need(s0, i, lo, hi) <= sb.size
  {
    hide Inv, Framed, Addr;
    OwnedCount(sb, s);
    if lo < hi {
      assert Addr(s.d, s.I[i], hi - 1) != 0;
      IndirectNeeded(s.d, s.I[i], hi - 1);
      if s0.I[i].addrs[NDIRECT] != 0 && s.I[i].addrs[NDIRECT] != s0.I[i].addrs[NDIRECT] { assert s.I[i].addrs[NDIRECT] != 0; }
    }
  }

  lemma OwnedCount(sb: Sb, s: St)
    requires Inv(sb, s)
    ensures |s.own| <= sb.size
  {
    hide Inv;
    OwnedBelow(sb, s);
    AllBelow(sb.size);
    assert s.own.Keys <= Below(sb.size);
    SubsetSize(s.own.Keys, Below(sb.size));
  }

  lemma {:induction false} SubsetSize(a: set<nat>, b: set<nat>)
    requires a <= b
    ensures |a| <= |b|
  {
    if a != {} {
      var x :| x in a;
      SubsetSize(a - {x}, b - {x});
    }
  }

  lemma FullCount(sb: Sb, s: St)
    requires Inv(sb, s) && Full(sb, s.d)
    ensures |s.own| == sb.size
  {
    hide RolesOk, InodesOk;
    forall b: nat | b < sb.size ensures b in s.own { assert Used(sb, s.d, b); }
    OwnedBelow(sb, s);
    AllBelow(sb.size);
    assert s.own.Keys == Below(sb.size);
  }

  lemma OwnedBelow(sb: Sb, s: St)
    requires Inv(sb, s)
    ensures forall b :: b in s.own ==> b < sb.size
  {
    hide BitsOk, InodesOk;
    forall b | b in s.own ensures b < sb.size { assert RoleOk(sb, s, b); }
  }

  ghost function Below(n: nat): (r: set<nat>)
    ensures forall b: nat :: b in r <==> b < n
  {
    if n == 0 then {} else Below(n - 1) + {n - 1}
  }

  lemma {:induction false} AllBelow(n: nat)
    ensures |Below(n)| == n
  {
    if n > 0 { AllBelow(n - 1); }
  }

  lemma TouchedBound(off: nat, n: nat, k: nat)
    requires 0 < k <= n
    ensures Touched(off, k) <= Touched(off, n)
  {
  }

  lemma TouchedStep(off: nat, n: nat, tot: nat, m: nat)
    requires tot < n && (tot == 0 || (off + tot) % BSIZE == 0) && m == Min(n - tot, BSIZE - (off + tot) % BSIZE)
    ensures 0 < m && Touched(off, tot + m) == Touched(off, tot) + 1
    ensures off / BSIZE + Touched(off, tot) == (off + tot) / BSIZE
    ensures tot + m == n || (off + (tot + m)) % BSIZE == 0
  {
  }

  /** Extending the size and writing the inode back does not change where blocks are. */
  lemma SpentDone(sb: Sb, s0: St, s: St, t: St, i: nat, lo: nat, hi: nat, l0: set<nat>, l: set<nat>)
    requires Spent(sb, s0, s, i, lo, hi, l0, l) && i in t.I && t.I[i].addrs == s.I[i].addrs
    requires forall n: nat :: n < MAXFILE ==> Addr(t.d, t.I[i], n) == Addr(s.d, s.I[i], n)
    ensures i in s0.I && lo <= hi <= MAXFILE && l == l0 + Logs(sb, s0, t, i, lo, hi)
  {
    hide Logs, Addr;
    forall n: nat | lo <= n < hi ensures Addr(s.d, s.I[i], n) != 0 && Addr(t.d, t.I[i], n) == Addr(s.d, s.I[i], n) {
      assert n < MAXFILE;
    }
    LogsKept(sb, s0, s, t, i, lo, hi);
  }

  /** The blocks lo up to hi exist now, and no other block was added. */
  ghost predicate Spots(s0: St, s: St, i: nat, lo: nat, hi: nat) {
    && i in s0.I && i in s.I
    && forall n: nat {:trigger Addr(s.d, s.I[i], n)} :: n < MAXFILE ==>
         if lo <= n < hi then Addr(s.d, s.I[i], n) != 0 else Addr(s.d, s.I[i], n) == Addr(s0.d, s0.I[i], n)
  }

  /** The direct blocks need no indirect block. */
  ghost predicate KeepsIndirect(s0: St, s: St, i: nat, hi: nat) {
    i in s0.I && i in s.I && (hi <= NDIRECT ==> s.I[i].addrs[NDIRECT] == s0.I[i].addrs[NDIRECT])
  }

  lemma PaidDone(sb: Sb, s0: St, s: St, t: St, i: nat, lo: nat, hi: nat, l0: set<nat>, l: set<nat>, l': set<nat>)
    requires Paid(sb, s0, s, l0, l, i, lo, hi) && Spent(sb, s0, s, i, lo, hi, l0, l) && i in t.I && t.I[i].addrs == s.I[i].addrs
    requires t.own == s.own && Framed(sb, s.d, t.d, l, l')
    requires forall n: nat :: n < MAXFILE ==> Addr(t.d, t.I[i], n) == Addr(s.d, s.I[i], n)
    ensures Paid(sb, s0, t, l0, l', i, lo, hi) && Spots(s0, t, i, lo, hi) && KeepsIndirect(s0, t, i, hi)
  {
    hide Logs, Addr, Framed;
    FramedMore(sb, s0.d, s.d, t.d, l0, l, l');
  }

  // ----- the loops of itrunc() -----

  lemma UsedIs(sb: Sb, d: Disk, b: nat)
    requires DiskOk(sb, d) && b < sb.size
    ensures Bblock(sb, b) < |d| && Used(sb, d, b) == MapBit(d[Bblock(sb, b)], b % BPB)
  {
  }

  /** The blocks in use are those of before except the ones of inode i. */
  ghost predicate Without(own: map<nat, Owner>, own': map<nat, Owner>, i: nat) {
    && (forall b :: b in own' <==> b in own && !OwnedBy(own[b], i))
    && (forall b :: b in own' ==> own'[b] == own[b])
  }

  /** The blocks of inode i of rank below n have been freed. */
  ghost predicate Freed(sb: Sb, s0: St, s: St, i: nat, n: nat) {
    && Inv(sb, s0) && i in s0.I && Inv(sb, s) && s == Detached(s0, i).(d := s.d, own := Trimmed(s0.own, i, n))
    && (forall b: nat :: Nmeta(sb) <= b < |s.d| && b < |s0.d| ==> s.d[b] == s0.d[b])
    && (Synced(sb, s0, {i}) ==> Synced(sb, s, {i}))
  }

  /** x still has the addresses of y from k on. */
  ghost predicate AddrsFrom(x: Dinode, y: Dinode, k: nat) {
    && x == y.(addrs := x.addrs)
    && (forall j :: 0 <= j <= NDIRECT ==> x.addrs[j] == if j < k then 0 else y.addrs[j])
  }

  lemma FreedNone(sb: Sb, s: St, i: nat)
    requires Inv(sb, s) && i in s.I
    ensures Freed(sb, s, Detached(s, i), i, 0)
  {
    hide Inv, Trimmed, Blank, NoAddrs, Ino;
    DetachOk(sb, s, i);
  }

  ghost function RankAddr(s: St, i: nat, n: nat): nat
    requires i in s.I && n <= MAXFILE
  {
    if n < MAXFILE then Addr(s.d, s.I[i], n) else s.I[i].addrs[NDIRECT]
  }

  /** The block of rank n, if there is one, is the only one and is loose by now. */
  lemma FreedNext(sb: Sb, s0: St, s: St, i: nat, n: nat)
    requires Freed(sb, s0, s, i, n) && n <= MAXFILE
    ensures i in s0.I && Inv(sb, s)
    ensures var a := RankAddr(s0, i, n);
            && (a != 0 ==> a in s.own && s.own[a] == Loose && Trimmed(s0.own, i, n + 1) == Trimmed(s0.own, i, n) - {a})
            && (a == 0 ==> Freed(sb, s0, s, i, n + 1))
  {
    hide Inv, Synced, Addr, Blank, NoAddrs;
    RankOwner(sb, s0, i, n);
  }

  lemma RankOwner(sb: Sb, s: St, i: nat, n: nat)
    requires Inv(sb, s) && i in s.I && n <= MAXFILE
    ensures var a := RankAddr(s, i, n); a != 0 ==> a in s.own && OwnedBy(s.own[a], i) && Rank(s.own[a]) == n
    ensures forall b :: b in s.own && OwnedBy(s.own[b], i) && Rank(s.own[b]) == n ==> b == RankAddr(s, i, n) && b != 0
  {
    hide BitsOk, Entry;
    assert InodeOk(s, i);
    if n < MAXFILE { assert LinkOk(s.d, s.own, s.I[i], i, n); }
    forall b | b in s.own && OwnedBy(s.own[b], i) && Rank(s.own[b]) == n ensures b == RankAddr(s, i, n) && b != 0 {
      assert RoleOk(sb, s, b);
    }
  }

  lemma FreedStep(sb: Sb, s0: St, s: St, i: nat, n: nat, a: nat)
    requires Freed(sb, s0, s, i, n) && n <= MAXFILE && a == RankAddr(s0, i, n) && a != 0
    requires DiskOk(sb, s.d) && a < sb.size && Inv(sb, s.(d := SetUsed(sb, s.d, a, false), own := s.own - {a}))
    ensures Freed(sb, s0, s.(d := SetUsed(sb, s.d, a, false), own := s.own - {a}), i, n + 1)
  {
    hide Inv, Addr, Blank, NoAddrs, PutMapBit, Trimmed;
    var t := s.(d := SetUsed(sb, s.d, a, false), own := s.own - {a});
    FreedNext(sb, s0, s, i, n);
    assert sb.bmapstart <= Bblock(sb, a) < Nmeta(sb);
    if Synced(sb, s, {i}) { SyncedStep(sb, s, t, i); }
  }

  lemma IndirectThere(sb: Sb, s0: St, s: St, i: nat, n: nat)
    requires Freed(sb, s0, s, i, n) && s0.I[i].addrs[NDIRECT] != 0 && n <= MAXFILE
    ensures var ind := s0.I[i].addrs[NDIRECT];
            ind < |s.d| && ind < |s0.d| && s.d[ind] == s0.d[ind] && RankAddr(s0, i, MAXFILE) == ind
    ensures n == MAXFILE ==> s0.I[i].addrs[NDIRECT] in s.own && s.own[s0.I[i].addrs[NDIRECT]] == Loose
    ensures Inv(sb, s)
  {
    hide BitsOk, Synced, Trimmed;
    var ind := s0.I[i].addrs[NDIRECT];
    assert InodeOk(s0, i) && RoleOk(sb, s0, ind);
    if n == MAXFILE { FreedNext(sb, s0, s, i, n); }
  }

  /** Without an indirect block there is nothing left to free. */
  lemma NoIndirect(sb: Sb, s0: St, s: St, i: nat)
    requires Freed(sb, s0, s, i, NDIRECT) && s0.I[i].addrs[NDIRECT] == 0
    ensures Freed(sb, s0, s, i, MAXFILE + 1)
  {
    hide Synced, Blank, NoAddrs, BitsOk, InodesOk;
    forall b | b in s0.own && OwnedBy(s0.own[b], i) ensures Rank(s0.own[b]) < NDIRECT { assert RoleOk(sb, s0, b); }
    assert Trimmed(s0.own, i, NDIRECT) == Trimmed(s0.own, i, MAXFILE + 1);
  }

  /** The bitmap blocks of the blocks of inode i of rank below n. */
  ghost function Maps(sb: Sb, own: map<nat, Owner>, i: nat, n: nat): set<nat> {
    set b | b in own && OwnedBy(own[b], i) && Rank(own[b]) < n :: Bblock(sb, b)
  }

  lemma NoMaps(sb: Sb, own: map<nat, Owner>, i: nat)
    ensures Maps(sb, own, i, 0) == {} && Maps(sb, own, i, NDIRECT) <= Maps(sb, own, i, MAXFILE + 1)
  {
  }

  lemma NextMap(sb: Sb, s0: St, s: St, i: nat, n: nat)
    requires Freed(sb, s0, s, i, n) && n <= MAXFILE
    ensures var a := RankAddr(s0, i, n);
            Maps(sb, s0.own, i, n + 1) == Maps(sb, s0.own, i, n) + if a != 0 then {Bblock(sb, a)} else {}
  {
    hide Inv, Synced, Addr, Blank, NoAddrs, Bblock, Trimmed;
    RankOwner(sb, s0, i, n);
  }

  lemma NoIndirectMap(sb: Sb, s0: St, i: nat)
    requires Inv(sb, s0) && i in s0.I && s0.I[i].addrs[NDIRECT] == 0
    ensures Maps(sb, s0.own, i, MAXFILE + 1) == Maps(sb, s0.own, i, NDIRECT)
  {
    hide BitsOk, InodesOk, Bblock;
    forall b | b in s0.own && OwnedBy(s0.own[b], i) ensures Rank(s0.own[b]) < NDIRECT { assert RoleOk(sb, s0, b); }
  }

  lemma AllRanks(sb: Sb, s: St, i: nat)
    requires Inv(sb, s)
    ensures forall b :: b in s.own && OwnedBy(s.own[b], i) ==> Rank(s.own[b]) <= MAXFILE
  {
    hide Inv;
    forall b | b in s.own && OwnedBy(s.own[b], i) ensures Rank(s.own[b]) <= MAXFILE { RankBound(sb, s, b); }
  }

  lemma FreedAll(sb: Sb, s0: St, s: St, i: nat, x: Dinode)
    requires Freed(sb, s0, s, i, MAXFILE + 1) && Synced(sb, s0, {i})
    requires AddrsFrom(x.(size := s0.I[i].size), s0.I[i], NDIRECT + 1) && x.size == 0
    ensures i in s.I && s.I[i] == x && x == s0.I[i].(addrs := NoAddrs(), size := 0)
    ensures s.I == s0.I[i := x] && s.F == s0.F[i := Blank()] && Inv(sb, s) && Synced(sb, s, {i})
    ensures Without(s0.own, s.own, i)
  {
    hide Inv, Synced, Blank;
    assert x.addrs == NoAddrs();
    forall b | b in s0.own && OwnedBy(s0.own[b], i) ensures Rank(s0.own[b]) < MAXFILE + 1 {
      RankBound(sb, s0, b);
    }
  }

  lemma RankBound(sb: Sb, s: St, b: nat)
    requires Inv(sb, s) && b in s.own && Linked(s.own[b])
    ensures Rank(s.own[b]) <= MAXFILE
  {
    hide BitsOk, InodesOk;
    assert RoleOk(sb, s, b);
  }

  // ----- consistent file systems -----

  /** Between operations: inodes are on disk, every block in use is linked, and no file has holes. */
  ghost predicate Consistent(sb: Sb, s: St) {
    && Inv(sb, s) && Synced(sb, s, {}) && NoLoose(s.own)
    && forall i :: i in s.I ==> Covered(s.d, s.I[i], s.I[i].size)
  }

  lemma WriteConsistent(sb: Sb, s: St, t: St, i: nat)
    requires Consistent(sb, s) && Inv(sb, t) && Synced(sb, t, {}) && NoLoose(t.own) && KeepsLinks(s.own, t.own)
    requires i in t.I && t.I == s.I[i := t.I[i]] && Covered(t.d, t.I[i], t.I[i].size)
    ensures Consistent(sb, t)
  {
    hide Inv, Synced, NoLoose, KeepsLinks, Covered;
    forall j | j in t.I && j != i ensures Covered(t.d, t.I[j], t.I[j].size) { CoveredKept(sb, s, t, j, s.I[j].size); }
  }

  lemma TruncConsistent(sb: Sb, s: St, t: St, i: nat)
    requires Consistent(sb, s) && Inv(sb, t) && Synced(sb, t, {}) && Without(s.own, t.own, i)
    requires i in t.I && t.I == s.I[i := t.I[i]] && t.I[i].size == 0
    ensures Consistent(sb, t)
  {
    hide Inv, Synced;
    forall j | j in t.I && j != i ensures Covered(t.d, t.I[j], t.I[j].size) { TruncCovered(sb, s, t, i, j); }
  }

  lemma TruncCovered(sb: Sb, s: St, t: St, i: nat, j: nat)
    requires Inv(sb, s) && Inv(sb, t) && Without(s.own, t.own, i) && j in s.I && j in t.I && j != i
    requires t.I[j] == s.I[j] && Covered(s.d, s.I[j], s.I[j].size)
    ensures Covered(t.d, t.I[j], t.I[j].size)
  {
    hide BitsOk, Entry;
    assert InodeOk(s, j);
    forall n: nat | n < MAXFILE && n * BSIZE < s.I[j].size ensures Addr(t.d, t.I[j], n) != 0 {
      assert LinkOk(s.d, s.own, s.I[j], j, n);
      assert RoleOk(sb, t, Addr(s.d, s.I[j], n));
    }
  }
}
