/**
  mkfs/mkfs.c: the image it writes satisfies the file system invariant. mkfs hands out inodes
  and blocks in order and writes the bitmap last; until then the proof looks at the disk as if
  the bitmap were already up to date.
*/
module Mkfs {
  import opened FsDisk
  import opened Fs
  import opened FsOps

  /** A bitmap block with the first n bits set. */
  function BitsBlock(n: nat): (b: Block)
    requires n <= BPB
  {
    if n == 0 then Zeros() else PutMapBit(BitsBlock(n - 1), n - 1, true)
  }

  lemma {:induction false} BitsBlockAt(n: nat, k: nat)
    requires n <= BPB && k < BPB
    ensures MapBit(BitsBlock(n), k) <==> k < n
  {
    hide MapBit, PutMapBit;
    if n == 0 {
      ZeroBit(k);
    } else {
      MapBitPut(BitsBlock(n - 1), n - 1, true, k);
      BitsBlockAt(n - 1, k);
    }
  }

  lemma ZeroBit(k: nat)
    requires k < BPB
    ensures !MapBit(Zeros(), k)
  {
    NoBits(k % 8);
  }

  lemma {:induction false} NoBits(k: nat)
    ensures !Bit(0, k)
  {
    if k > 0 { NoBits(k - 1); }
  }

  /** The disk with the bitmap brought up to date for n blocks in use. */
  function Marked(sb: Sb, d: Disk, n: nat): (r: Disk)
    requires DiskOk(sb, d) && n <= BPB
    ensures |r| == |d|
  {
    d[sb.bmapstart := BitsBlock(n)]
  }

  lemma MarkedUsed(sb: Sb, d: Disk, n: nat, b: nat)
    requires DiskOk(sb, d) && n <= BPB && b < sb.size
    requires forall c: nat :: sb.bmapstart < c < Nmeta(sb) ==> d[c] == Zeros()
    ensures Used(sb, Marked(sb, d, n), b) <==> b < n
  {
    hide MapBit, BitsBlock;
    if b < BPB {
      BitsBlockAt(n, b % BPB);
    } else {
      ZeroBit(b % BPB);
    }
  }

  /** Taking the next block, which is still zero, is an allocation. */
  lemma MarkNext(sb: Sb, d: Disk, n: nat)
    requires DiskOk(sb, d) && Nmeta(sb) <= n < BPB && n < sb.size && d[n] == Zeros()
    ensures Allocated(sb, Marked(sb, d, n), n) == Marked(sb, d, n + 1)
  {
    hide PutMapBit;
    assert Bblock(sb, n) == sb.bmapstart && n % BPB == n;
  }

  // ----- the invariant of a growing image -----

  ghost function View(sb: Sb, d: Disk, n: nat, own: map<nat, Owner>, I: map<nat, Dinode>, F: map<nat, seq<Byte>>): St
    requires DiskOk(sb, d) && n <= BPB
  {
    St(Marked(sb, d, n), own, I, F)
  }

  /** Blocks from n on are untouched, as are the log and the bitmap blocks that stay empty. */
  ghost predicate Untouched(sb: Sb, d: Disk, n: nat)
    requires DiskOk(sb, d)
  {
    && (forall b: nat :: n <= b < sb.size ==> d[b] == Zeros())
    && (forall b: nat :: sb.bmapstart < b < Nmeta(sb) ==> d[b] == Zeros())
    && (forall b: nat :: 2 <= b < sb.inodestart ==> d[b] == Zeros())
  }

  ghost predicate ImageOk(sb: Sb, d: Disk, n: nat, own: map<nat, Owner>, I: map<nat, Dinode>, F: map<nat, seq<Byte>>) {
    && DiskOk(sb, d) && Nmeta(sb) <= n <= sb.size && n <= BPB && Untouched(sb, d, n)
    && Inv(sb, View(sb, d, n, own, I, F)) && NoLoose(own)
  }

  /** The next block is free, and taking it is what balloc() would do. */
  lemma TakeNext(sb: Sb, d: Disk, n: nat, own: map<nat, Owner>, I: map<nat, Dinode>, F: map<nat, seq<Byte>>)
    requires ImageOk(sb, d, n, own, I, F) && n < sb.size && n < BPB
    ensures n !in own && Taken(sb, View(sb, d, n, own, I, F), n) == View(sb, d, n + 1, own[n := Loose], I, F)
    ensures 0 < n < 0x1_0000_0000 && LowestFree(own, n)
  {
    hide RolesOk, InodesOk, Used, Allocated, Marked;
    OwnIsPrefix(sb, d, n, own, I, F);
    MarkedUsed(sb, d, n, n);
    assert Used(sb, View(sb, d, n, own, I, F).d, n) <==> n in own;
    MarkNext(sb, d, n);
  }

  /** Writing a block that is not a bitmap block commutes with marking. */
  lemma MarkedWrite(sb: Sb, d: Disk, n: nat, b: nat, blk: Block)
    requires DiskOk(sb, d) && n <= BPB && b < |d| && b != sb.bmapstart
    ensures Marked(sb, d[b := blk], n) == Marked(sb, d, n)[b := blk] && Marked(sb, d, n)[b] == d[b]
  {
    hide BitsBlock;
  }

  /** A block in use below n that is no bitmap block may be written. */
  lemma UntouchedWrite(sb: Sb, d: Disk, n: nat, b: nat, blk: Block)
    requires DiskOk(sb, d) && Untouched(sb, d, n) && b < n <= |d| && (sb.inodestart <= b < sb.bmapstart || Nmeta(sb) <= b)
    ensures Untouched(sb, d[b := blk], n)
  {
  }

  /** A file's block is below n. */
  lemma BelowNext(sb: Sb, d: Disk, n: nat, own: map<nat, Owner>, I: map<nat, Dinode>, F: map<nat, seq<Byte>>, b: nat)
    requires ImageOk(sb, d, n, own, I, F) && b in own && own[b] != Meta
    ensures Nmeta(sb) <= b < n
  {
    hide InodesOk, Used, Marked;
    var s := View(sb, d, n, own, I, F);
    assert RoleOk(sb, s, b);
    MarkedUsed(sb, d, n, b);
    assert Used(sb, s.d, b) <==> b in own;
  }

  // ----- how many blocks are taken -----

  /** Image blocks that can be handed out: balloc() has one bitmap block. */
  function Limit(sb: Sb): nat { if sb.size < BPB then sb.size else BPB }

  function Next(n: nat, first: bool): nat { if first then n + 1 else n }

  function Got(own: map<nat, Owner>, n: nat, o: Owner, first: bool): map<nat, Owner> { if first then own[n := o] else own }

  /** The blocks of a file of e bytes, its indirect block included. */
  function Blocks(e: nat): nat {
    var b := (e + BSIZE - 1) / BSIZE;
    if b > NDIRECT then b + 1 else b
  }

  lemma NoBlocks()
    ensures Blocks(0) == 0
  {
  }

  lemma BlocksMonotone(e: nat, f: nat)
    requires e <= f
    ensures Blocks(e) <= Blocks(f)
  {
  }

  /** The size of inode j when that of i is taken to be e. */
  function SizeOf(I: map<nat, Dinode>, i: nat, e: nat, j: nat): nat
    requires j in I
  {
    if j == i then e else I[j].size
  }

  ghost predicate InSize(o: Owner, I: map<nat, Dinode>, i: nat, e: nat) {
    match o
    case Data(j, n) => j in I && n * BSIZE < SizeOf(I, i, e, j)
    case Indirect(j) => j in I && NDIRECT * BSIZE < SizeOf(I, i, e, j)
    case _ => true
  }

  /** No file has a block it does not need, when inode i has e bytes. */
  ghost predicate Snug(own: map<nat, Owner>, I: map<nat, Dinode>, i: nat, e: nat) {
    forall b :: b in own ==> InSize(own[b], I, i, e)
  }

  /** Every file has exactly the blocks its size asks for. */
  ghost predicate Neat(s: St) { AllCovered(s) && forall i :: i in s.I ==> Snug(s.own, s.I, i, s.I[i].size) }

  /** The block at o is there already exactly if o is not on a block boundary, and so for the indirect block. */
  lemma SnugAt(sb: Sb, s: St, i: nat, o: nat)
    requires Inv(sb, s) && i in s.I && o / BSIZE < MAXFILE && Snug(s.own, s.I, i, o) && Covered(s.d, s.I[i], o)
    ensures Addr(s.d, s.I[i], o / BSIZE) == 0 <==> o % BSIZE == 0
    ensures o / BSIZE >= NDIRECT ==> (s.I[i].addrs[NDIRECT] == 0 <==> o == NDIRECT * BSIZE)
  {
    hide BitsOk, RolesOk, Entry;
    var x, n := s.I[i], o / BSIZE;
    assert InodeOk(s, i) && LinkOk(s.d, s.own, x, i, n);
    assert n * BSIZE < o <==> o % BSIZE != 0;
    if n >= NDIRECT {
      if x.addrs[NDIRECT] != 0 { assert InSize(s.own[x.addrs[NDIRECT]], s.I, i, o); }
      if o > NDIRECT * BSIZE { assert Addr(s.d, x, NDIRECT) != 0; }
    }
    if Addr(s.d, x, n) != 0 { assert InSize(s.own[Addr(s.d, x, n)], s.I, i, o); }
  }

  lemma BlocksStep(o: nat, m: nat)
    requires 0 < m && o % BSIZE + m <= BSIZE
    ensures o / BSIZE < NDIRECT ==> Blocks(o + m) == Next(Blocks(o), o % BSIZE == 0)
    ensures o / BSIZE >= NDIRECT ==> Blocks(o + m) == Next(Next(Blocks(o), o == NDIRECT * BSIZE), o % BSIZE == 0)
  {
  }

  /** Appending up to the end of a block keeps the blocks needed. */
  lemma SnugMore(own: map<nat, Owner>, own': map<nat, Owner>, I: map<nat, Dinode>, I': map<nat, Dinode>, i: nat, o: nat, m: nat,
                 n: nat, n': nat, f: bool, f': bool)
    requires Snug(own, I, i, o) && i in I && i in I' && I' == I[i := I'[i]] && 0 < m
    requires if o / BSIZE < NDIRECT then own' == Got(own, n, Data(i, o / BSIZE), f)
             else own' == Got(Got(own, n, Indirect(i), f), n', Data(i, o / BSIZE), f')
    ensures Snug(own', I', i, o + m)
  {
    forall b | b in own' ensures InSize(own'[b], I', i, o + m) {
      if b in own && own'[b] == own[b] { assert InSize(own[b], I, i, o); }
    }
  }

  function BlankInode(): Dinode { Dinode(0, 0, 0, 0, 0, NoAddrs()) }

  /** The boot block, which stays empty, and the super block. */
  ghost predicate Booting(d: Disk, superblock: Block) { |d| > 1 && d[0] == Zeros() && d[1] == superblock }

  lemma BootKept(sb: Sb, d: Disk, i: nat, x: Dinode, superblock: Block)
    requires DiskOk(sb, d) && i < sb.ninodes && Booting(d, superblock)
    ensures Booting(SetIno(sb, d, i, x), superblock)
  {
    hide PutInode;
  }

  class Image {
    const sb: Sb
    const superblock: Block
    var d: Disk
    var freeinode: nat
    var freeblock: nat
    ghost var own: map<nat, Owner>
    ghost var I: map<nat, Dinode>
    ghost var F: map<nat, seq<Byte>>

    ghost predicate Ok() reads this { ImageOk(sb, d, freeblock, own, I, F) && Booting(d, superblock) }

    ghost function V(): St
      reads this
      requires Ok()
    {
      View(sb, d, freeblock, own, I, F)
    }

    /** An image with the super block, no files and no blocks taken. */
    constructor (sb: Sb, superblock: Block)
      requires SbOk(sb) && Nmeta(sb) <= BPB
      ensures this.sb == sb && this.superblock == superblock && Ok() && Synced(sb, V(), {}) && Neat(V())
      ensures freeinode == 1 && freeblock == Nmeta(sb)
      ensures forall i: nat :: i < sb.ninodes ==> i in I && I[i] == BlankInode()
    {
      this.sb, this.superblock := sb, superblock;
      d := ZeroDisk(sb)[1 := superblock];
      freeinode, freeblock := 1, Nmeta(sb);
      own := map b | b in Upto(Nmeta(sb)) :: Meta;
      I := map i | i in Upto(sb.ninodes) :: BlankInode();
      F := map i | i in Upto(sb.ninodes) :: Fs.Blank();
      new;
      FreshImage(sb, d, own, I, F);
    }

    /** The direct case of iappend(): the block of file block fbn, taking the next block if there is none. */
    method DirectBlock(din: Dinode, fbn: nat, ghost i: nat) returns (ok: bool, din': Dinode, x: nat)
      requires Ok() && i in I && I[i] == din && fbn < NDIRECT
      modifies this
      ensures Ok() && Grows(sb, old(V()), V(), i) && i in I && I[i] == din' && freeinode == old(freeinode)
      ensures ok ==> x != 0 && Addr(V().d, din', fbn) == x
      ensures var f := old(Addr(V().d, din, fbn)) == 0;
              if ok then freeblock == Next(old(freeblock), f) && own == Got(old(own), old(freeblock), Data(i, fbn), f)
              else Next(old(freeblock), f) > Limit(sb)
    {
      hide Inv, Grows, NoLoose, Untouched, Marked, Addr, Allocated;
      ghost var s0 := V();
      din' := din;
      DirectAddr(s0.d, din, fbn);
      GrowsSame(sb, s0, i);
      x := din.addrs[fbn];
      if x == 0 {
        if freeblock == sb.size || freeblock == BPB { return false, din, 0; }
        x := freeblock;
        TakeNext(sb, d, freeblock, own, I, F);
        LinkDirectStep(sb, s0, i, fbn, x);
        LinkedView(sb, d, x, own, I, F, i, fbn, Data(i, fbn));
        StillOk(sb, s0, d, x, own, Data(i, fbn), I[i := din.(addrs := din.addrs[fbn := x])], F, i);
        freeblock := freeblock + 1;
        din' := din.(addrs := din.addrs[fbn := x]);
        own, I := own[x := Data(i, fbn)], I[i := din'];
        DirectAddr(V().d, din', fbn);
      }
      ok := true;
    }

    /** The indirect block of iappend(), taking the next block if there is none. */
    method IndirectBlock(din: Dinode, ghost i: nat) returns (ok: bool, din': Dinode, ind: nat)
      requires Ok() && i in I && I[i] == din
      modifies this
      ensures Ok() && Grows(sb, old(V()), V(), i) && i in I && I[i] == din' && freeinode == old(freeinode)
      ensures ok ==> Nmeta(sb) <= ind < freeblock && ind < |d| && din'.addrs[NDIRECT] == ind && SameAddrs(old(V()), V(), i)
      ensures var f := din.addrs[NDIRECT] == 0;
              if ok then freeblock == Next(old(freeblock), f) && own == Got(old(own), old(freeblock), Indirect(i), f)
              else Next(old(freeblock), f) > Limit(sb)
    {
      hide Inv, Grows, NoLoose, Untouched, Marked, Addr, Allocated;
      ghost var s0 := V();
      din' := din;
      GrowsSame(sb, s0, i);
      ind := din.addrs[NDIRECT];
      if ind == 0 {
        if freeblock == sb.size || freeblock == BPB { return false, din, 0; }
        ind := freeblock;
        TakeNext(sb, d, freeblock, own, I, F);
        LinkIndirectStep(sb, s0, i, ind);
        LinkedView(sb, d, ind, own, I, F, i, NDIRECT, Indirect(i));
        StillOk(sb, s0, d, ind, own, Indirect(i), I[i := din.(addrs := din.addrs[NDIRECT := ind])], F, i);
        freeblock := freeblock + 1;
        din' := din.(addrs := din.addrs[NDIRECT := ind]);
        own, I := own[ind := Indirect(i)], I[i := din'];
      } else {
        IndirectBelow(sb, d, freeblock, own, I, F, i);
      }
      ok := true;
    }

    /** The indirect case of iappend(). */
    method IndirectEntry(din: Dinode, fbn: nat, ghost i: nat) returns (ok: bool, din': Dinode, x: nat)
      requires Ok() && i in I && I[i] == din && NDIRECT <= fbn < MAXFILE
      modifies this
      ensures Ok() && Grows(sb, old(V()), V(), i) && i in I && I[i] == din' && freeinode == old(freeinode)
      ensures ok ==> x != 0 && Addr(V().d, din', fbn) == x
      ensures var f, g, n := din.addrs[NDIRECT] == 0, old(Addr(V().d, din, fbn)) == 0, Next(old(freeblock), din.addrs[NDIRECT] == 0);
              if ok then freeblock == Next(n, g) && own == Got(Got(old(own), old(freeblock), Indirect(i), f), n, Data(i, fbn), g)
              else Next(n, g) > Limit(sb)
    {
      hide Inv, Grows, NoLoose, Untouched, Marked, Addr, Allocated, Entry, PutEntry;
      ghost var s0 := V();
      var ind;
      IndirectAddr(s0.d, din, fbn);
      ok, din', ind := IndirectBlock(din, i);
      if !ok { return false, din', 0; }
      assert Addr(V().d, din', fbn) == Addr(s0.d, din, fbn);
      ghost var s1 := V();
      MarkedWrite(sb, d, freeblock, ind, d[ind]);
      IndirectAddr(s1.d, din', fbn);
      var indirect := d[ind];
      x := Entry(indirect, fbn - NDIRECT);
      if x == 0 {
        if freeblock == sb.size || freeblock == BPB { return false, din', 0; }
        x := freeblock;
        TakeNext(sb, d, freeblock, own, I, F);
        LinkEntryStep(sb, s1, i, fbn, x);
        EntryView(sb, d, x, own, I, F, i, fbn);
        UntouchedWrite(sb, d, freeblock, ind, PutEntry(indirect, fbn - NDIRECT, x));
        StillOk(sb, s1, d[ind := PutEntry(indirect, fbn - NDIRECT, x)], x, own, Data(i, fbn), I, F, i);
        d := d[ind := PutEntry(indirect, fbn - NDIRECT, x)];
        freeblock := freeblock + 1;
        own := own[x := Data(i, fbn)];
        GrowsMore(sb, s0, s1, V(), i);
      }
      ok := true;
    }

    /** The block of a file for offset o, at its end, taking the next blocks if there is none. */
    method BlockAt(din: Dinode, o: nat, ghost n: nat, ghost i: nat) returns (ok: bool, din': Dinode, x: nat)
      requires Ok() && i in I && I[i] == din && 0 < n && o % BSIZE + n <= BSIZE && o / BSIZE < MAXFILE
      requires Snug(own, I, i, o) && Covered(V().d, din, o)
      modifies this
      ensures Ok() && Grows(sb, old(V()), V(), i) && i in I && I[i] == din' && freeinode == old(freeinode)
      ensures ok ==> x != 0 && Addr(V().d, din', o / BSIZE) == x
      ensures var need := old(freeblock) + Blocks(o + n) - Blocks(o);
              if ok then freeblock == need && Snug(own, I, i, o + n) else need > Limit(sb)
    {
      hide Inv, Grows, NoLoose, Untouched, Marked, Addr, Snug, Covered, Blocks, Got;
      ghost var s0, first, n0, own0, I0 := V(), din.addrs[NDIRECT] == 0, freeblock, own, I;
      SnugAt(sb, s0, i, o);
      BlocksStep(o, n);
      if o / BSIZE < NDIRECT {
        ok, din', x := DirectBlock(din, o / BSIZE, i);
      } else {
        ok, din', x := IndirectEntry(din, o / BSIZE, i);
      }
      if !ok { return; }
      OnlyInode(sb, s0, V(), i);
      SnugMore(own0, own, I0, I, i, o, n, n0, Next(n0, first), if o / BSIZE < NDIRECT then o % BSIZE == 0 else first, o % BSIZE == 0);
    }

    /** One round of iappend(): bytes that fall into one block. */
    method AppendChunk(din: Dinode, o: nat, chunk: seq<Byte>, ghost i: nat) returns (ok: bool, din': Dinode)
      requires Ok() && i in I && I[i] == din
      requires 0 < |chunk| && o % BSIZE + |chunk| <= BSIZE && o + |chunk| <= MAXBYTES && o / BSIZE < MAXFILE
      requires Snug(own, I, i, o) && Covered(V().d, din, o)
      modifies this
      ensures Ok() && i in I && I[i] == din' && freeinode == old(freeinode)
      ensures ok ==> i in old(F) && |old(F)[i]| == MAXBYTES
      ensures ok ==> Wrote(sb, old(V()), V(), i, Splice(old(F)[i], o, chunk))
      ensures ok ==> Addr(V().d, din', o / BSIZE) != 0
      ensures var need := old(freeblock) + Blocks(o + |chunk|) - Blocks(o);
              if ok then freeblock == need && Snug(own, I, i, o + |chunk|) else need > Limit(sb)
    {
      hide Inv, Grows, NoLoose, Untouched, Marked, Addr, Splice, Wrote, Snug, Covered, Blocks, Limit;
      ghost var s0 := V();
      var x;
      ok, din', x := BlockAt(din, o, |chunk|, i);
      if !ok { return; }
      ghost var s1 := V();
      DataBelow(sb, d, freeblock, own, I, F, i, o / BSIZE, x);
      MarkedWrite(sb, d, freeblock, x, Splice(d[x], o % BSIZE, chunk));
      UntouchedWrite(sb, d, freeblock, x, Splice(d[x], o % BSIZE, chunk));
      WriteStep(sb, s0, s1, i, o, x, chunk);
      WroteOk(sb, s0, s1, d[x := Splice(d[x], o % BSIZE, chunk)], freeblock, own, I, F[i := Splice(F[i], o, chunk)], i,
              Splice(s0.F[i], o, chunk));
      d := d[x := Splice(d[x], o % BSIZE, chunk)];
      F := F[i := Splice(F[i], o, chunk)];
    }

    /** winode(): store an inode. */
    method Winode(i: nat, din: Dinode)
      requires Ok() && i in I && din.addrs == I[i].addrs && din.size <= MAXBYTES
      modifies this
      ensures Ok() && freeinode == old(freeinode) && freeblock == old(freeblock) && own == old(own) && F == old(F)
      ensures I == old(I)[i := din]
      ensures V().d == SetIno(sb, old(V()).d, i, din) && SameAddrsAll(old(V()).d, V().d, din)
      ensures old(Synced(sb, V(), {i})) ==> Synced(sb, V(), {})
    {
      hide Inv, NoLoose, Untouched, Marked, SetIno, Synced, SameAddrsAll;
      ghost var s0 := V();
      StoreInode(sb, d, freeblock, own, I, F, i, din);
      BootKept(sb, d, i, din, superblock);
      d := SetIno(sb, d, i, din);
      I := I[i := din];
    }

    /** iappend(): add bytes at the end of a file. It fails only when the image has no more blocks. */
    method Iappend(i: nat, src: seq<Byte>) returns (ok: bool)
      requires Ok() && Synced(sb, V(), {}) && Neat(V()) && i in I && I[i].size + |src| <= MAXBYTES
      modifies this
      ensures Ok() && freeinode == old(freeinode)
      ensures ok ==> Synced(sb, V(), {}) && Neat(V()) && Written(old(V()), V(), i, old(I[i].size), src)
      ensures var need := old(freeblock) + Blocks(old(I[i].size) + |src|) - Blocks(old(I[i].size));
              if ok then freeblock == need else need > Limit(sb)
    {
      hide Inv, NoLoose, Untouched, Marked, Synced, Writing, Wrote, Grows, Written, Covered, Addr, Splice, SetIno, KeepsLinks,
           SameAddrsAll, Snug, AllCovered, Blocks;
      ghost var s0 := V();
      ReadInode(sb, d, freeblock, own, I, F, i);
      var din := Ino(sb, d, i);
      var off := din.size;
      NeatAt(s0, i);
      WritingNone(sb, s0, i, off, src);
      var tot := 0;
      while tot < |src|
        invariant tot <= |src| && (tot == 0 || tot == |src| || (off + tot) % BSIZE == 0)
        invariant Ok() && freeinode == old(freeinode) && i in I && I[i] == din && Writing(sb, s0, V(), i, off, src, tot)
        invariant Snug(own, I, i, off + tot) && freeblock == old(freeblock) + Blocks(off + tot) - Blocks(off)
      {
        var o := off + tot;
        var fbn := o / BSIZE;
        var n1 := Min(|src| - tot, (fbn + 1) * BSIZE - o);
        ghost var s1 := V();
        WritingReady(sb, s0, s1, i, off, src, tot);
        TouchedStep(off, |src|, tot, n1);
        WritingCovers(sb, s0, s1, i, off, src, tot);
        BlocksMonotone(o + n1, off + |src|);
        ok, din := AppendChunk(din, o, src[tot..tot + n1], i);
        if !ok { return; }
        WritingStep(sb, s0, s1, V(), i, off, src, tot, n1);
        tot := tot + n1;
      }
      ghost var s2 := V();
      WritingDone(sb, s0, s2, i, off, src);
      din := din.(size := off + tot);
      SizedByAppend(s2, i, din, off, |src|);
      SyncedOthers(sb, s0, i);
      WritingSized(sb, s0, s2, s2.(I := s2.I[i := din]), i, off, src);
      SyncedSame(sb, s2.(I := s2.I[i := din]), s2, i);
      Winode(i, din);
      AppendDone(sb, s0, s2, V(), i, off, src, din);
      NeatNow(s2, V(), i, off + |src|);
      ok := true;
    }

    /** ialloc(): the next inode, empty, with one link. */
    method Ialloc(typ: Ushort) returns (i: nat)
      requires Ok() && Synced(sb, V(), {}) && freeinode < sb.ninodes && freeinode in I && I[freeinode] == BlankInode()
      modifies this
      ensures Ok() && Synced(sb, V(), {}) && i == old(freeinode) && freeinode == i + 1
      ensures I == old(I)[i := Dinode(typ, 0, 0, 1, 0, NoAddrs())] && F == old(F) && own == old(own)
      ensures freeblock == old(freeblock) && File(V(), i) == []
      ensures old(Neat(V())) ==> Neat(V())
    {
      hide Inv, NoLoose, Untouched, Marked, Synced, Covered, Addr, NoAddrs, SetIno, SameAddrsAll;
      ghost var s0 := V();
      SyncedOthers(sb, s0, freeinode);
      i := freeinode;
      freeinode := freeinode + 1;
      Winode(i, Dinode(typ, 0, 0, 1, 0, NoAddrs()));
      AllocDone(sb, s0, V(), i);
    }

    /**
      The size of the root directory is rounded up to the next block boundary, beyond it even when
      it is on one, so it gets a hole at its end exactly if it was on one.
    */
    method FixRoot(root: nat)
      requires Ok() && Synced(sb, V(), {}) && Neat(V()) && root in I && I[root].size + BSIZE <= MAXBYTES
      modifies this
      ensures Ok() && Synced(sb, V(), {}) && F == old(F) && own == old(own) && freeblock == old(freeblock)
      ensures I == old(I)[root := old(I)[root].(size := (old(I)[root].size / BSIZE + 1) * BSIZE)]
      ensures AllCovered(V()) <==> old(I)[root].size % BSIZE != 0
    {
      hide Inv, NoLoose, Untouched, Marked, Synced, Covered, Addr, SetIno, SameAddrsAll, AllCovered, Snug;
      ghost var s0 := V();
      NeatAt(s0, root);
      SnugAt(sb, s0, root, I[root].size);
      ReadInode(sb, d, freeblock, own, I, F, root);
      SyncedOthers(sb, s0, root);
      var din := Ino(sb, d, root);
      var off := (din.size / BSIZE + 1) * BSIZE;
      din := din.(size := off);
      Winode(root, din);
      RootRounded(sb, s0, V(), root, din);
    }

    /** balloc(): write the bitmap for the blocks taken. The image is then a file system. */
    method Balloc()
      requires Ok() && Synced(sb, V(), {}) && freeblock < BPB
      modifies this
      ensures St(d, own, I, F) == old(V()) && Inv(sb, St(d, own, I, F)) && NoLoose(own)
      ensures Synced(sb, St(d, own, I, F), {}) && (old(AllCovered(V())) <==> Consistent(sb, St(d, own, I, F)))
      ensures freeblock == old(freeblock) && forall b: nat :: b in own <==> b < freeblock
      ensures |d| == sb.size && 2 <= sb.inodestart && forall b: nat :: 2 <= b < sb.inodestart ==> d[b] == Zeros()
      ensures Booting(d, superblock)
    {
      hide Inv, NoLoose, Synced, Covered, BitsBlock;
      OwnIsPrefix(sb, d, freeblock, own, I, F);
      var buf := BitmapBytes(freeblock);
      d := d[sb.bmapstart := buf];
    }
  }

  // ----- the whole program -----

  const DIRENT: nat := 16             // sizeof(struct dirent)
  const T_DIR: Ushort := 1
  const T_FILE: Ushort := 2

  /** The bytes of all pieces, one after the other. */
  function Flat(xs: seq<seq<Byte>>): seq<Byte> { if xs == [] then [] else Flat(xs[..|xs| - 1]) + xs[|xs| - 1] }

  lemma FlatMore(xs: seq<seq<Byte>>, k: nat)
    requires k < |xs|
    ensures Flat(xs[..k + 1]) == Flat(xs[..k]) + xs[k]
  {
    assert xs[..k + 1][..k] == xs[..k];
  }

  lemma {:induction false} FlatLength(xs: seq<seq<Byte>>)
    requires forall k :: 0 <= k < |xs| ==> |xs[k]| == DIRENT
    ensures |Flat(xs)| == |xs| * DIRENT
  {
    if xs != [] { FlatLength(xs[..|xs| - 1]); }
  }

  /** Directory entries, of which the first two are "." and "..", and the contents of a file for each other entry. */
  predicate InputOk(sb: Sb, entries: seq<seq<Byte>>, files: seq<seq<Byte>>) {
    && |entries| == |files| + 2 <= sb.ninodes && |entries| * DIRENT + BSIZE <= MAXBYTES
    && (forall k :: 0 <= k < |entries| ==> |entries[k]| == DIRENT)
    && (forall k :: 0 <= k < |files| ==> |files[k]| <= MAXBYTES)
  }

  /** An inode of a type with one link. */
  predicate Linked1(x: Dinode, typ: Ushort) { x.typ == typ && x.nlink == 1 && x.major == 0 && x.minor == 0 }

  ghost predicate HoldsFile(s: St, i: nat, c: seq<Byte>) {
    i in s.I && s.I[i].size == |c| && File(s, i) == c && Linked1(s.I[i], T_FILE)
  }

  /** Inode 1 holds the bytes dir, inodes 2 and up the files, and the rest are free. */
  ghost predicate Holding(sb: Sb, s: St, dir: seq<Byte>, files: seq<seq<Byte>>) {
    && |files| + 2 <= sb.ninodes && (forall i: nat :: i < sb.ninodes ==> i in s.I)
    && s.I[1].size == |dir| && File(s, 1) == dir && Linked1(s.I[1], T_DIR)
    && (forall k :: 0 <= k < |files| ==> HoldsFile(s, k + 2, files[k]))
    && (forall i: nat :: i < sb.ninodes && (i == 0 || |files| + 2 <= i) ==> s.I[i] == BlankInode())
  }

  /** The blocks of all the files. */
  function AllBlocks(files: seq<seq<Byte>>): nat {
    if files == [] then 0 else AllBlocks(files[..|files| - 1]) + Blocks(|files[|files| - 1]|)
  }

  /** The blocks after the first k entries and their files. */
  function Need(files: seq<seq<Byte>>, k: nat): nat
    requires Filled(k) <= |files|
  {
    Blocks(k * DIRENT) + AllBlocks(files[..Filled(k)])
  }

  /** What the next entry adds, and that the need only grows. */
  lemma NeedMore(files: seq<seq<Byte>>, k: nat)
    requires Filled(k + 1) <= |files|
    ensures Need(files, k + 1) - Need(files, k)
            == Blocks((k + 1) * DIRENT) - Blocks(k * DIRENT) + if k >= 2 then Blocks(|files[k - 2]|) else 0
    ensures Blocks(k * DIRENT) <= Blocks((k + 1) * DIRENT)
  {
    hide Blocks;
    BlocksMonotone(k * DIRENT, (k + 1) * DIRENT);
    if k >= 2 { assert files[..k - 1][..k - 2] == files[..k - 2]; }
  }

  lemma {:induction false} NeedMonotone(files: seq<seq<Byte>>, k: nat, n: nat)
    requires k <= n && Filled(n) <= |files|
    ensures Need(files, k) <= Need(files, n)
    decreases n - k
  {
    hide Need, Blocks;
    if k < n {
      NeedMore(files, k);
      NeedMonotone(files, k + 1, n);
    }
  }

  /** An entry appended to the root directory. */
  lemma EntryAdded(sb: Sb, s: St, t: St, dir: seq<Byte>, files: seq<seq<Byte>>, e: seq<Byte>)
    requires Holding(sb, s, dir, files) && Inv(sb, t) && Written(s, t, 1, |dir|, e)
    ensures Holding(sb, t, dir + e, files)
  {
    hide Inv, File;
    FileIs(sb, t, 1);
    assert Overwrite(dir, |dir|, e) == dir + e;
    forall k | 0 <= k < |files| ensures HoldsFile(t, k + 2, files[k]) { assert HoldsFile(s, k + 2, files[k]); }
  }

  lemma InodeTaken(sb: Sb, s: St, t: St, i: nat, dir: seq<Byte>, files: seq<seq<Byte>>)
    requires Holding(sb, s, dir, files) && i == |files| + 2 < sb.ninodes && File(t, i) == []
    requires t.I == s.I[i := Dinode(T_FILE, 0, 0, 1, 0, NoAddrs())] && t.F == s.F
    ensures Holding(sb, t, dir, files + [[]])
  {
    forall k | 0 <= k < |files| + 1 ensures HoldsFile(t, k + 2, (files + [[]])[k]) {
      if k < |files| { assert HoldsFile(s, k + 2, files[k]); }
    }
  }

  lemma FileFilled(sb: Sb, s: St, t: St, i: nat, dir: seq<Byte>, files: seq<seq<Byte>>, c: seq<Byte>)
    requires Holding(sb, s, dir, files + [[]]) && i == |files| + 2 && Inv(sb, t) && Written(s, t, i, 0, c)
    ensures Holding(sb, t, dir, files + [c])
  {
    hide Inv, File;
    FileIs(sb, t, i);
    assert Overwrite([], 0, c) == c;
    assert HoldsFile(s, i, (files + [[]])[|files|]);
    forall k | 0 <= k < |files| + 1 ensures HoldsFile(t, k + 2, (files + [c])[k]) {
      assert HoldsFile(s, k + 2, (files + [[]])[k]);
    }
  }

  lemma FirstInode(sb: Sb, s: St, t: St)
    requires 2 <= sb.ninodes && (forall i: nat :: i < sb.ninodes ==> i in s.I && s.I[i] == BlankInode())
    requires t.I == s.I[1 := Dinode(T_DIR, 0, 0, 1, 0, NoAddrs())] && File(t, 1) == []
    ensures Holding(sb, t, [], [])
  {
  }

  lemma ImageInv(sb: Sb, d: Disk, n: nat, own: map<nat, Owner>, I: map<nat, Dinode>, F: map<nat, seq<Byte>>)
    requires ImageOk(sb, d, n, own, I, F)
    ensures var s := View(sb, d, n, own, I, F); Inv(sb, s) && s.I == I && s.F == F && s.own == own && n <= BPB && n <= sb.size
  {
  }

  /** The root directory and the files, in order. */
  method Populate(im: Image, entries: seq<seq<Byte>>, files: seq<seq<Byte>>) returns (ok: bool)
    requires InputOk(im.sb, entries, files) && im.Ok() && Synced(im.sb, im.V(), {}) && Neat(im.V()) && im.freeinode == 1
    requires forall i: nat :: i < im.sb.ninodes ==> i in im.I && im.I[i] == BlankInode()
    modifies im
    ensures im.Ok() && |entries| == |files| + 2
    ensures var need := old(im.freeblock) + Need(files, |entries|);
            if ok then im.freeblock == need else need > Limit(im.sb)
    ensures ok ==> Synced(im.sb, im.V(), {}) && Neat(im.V()) && Holding(im.sb, im.V(), Flat(entries), files)
  {
    hide Inv, Synced, Written, File, Flat, Neat, Blocks, ImageOk, View;
    ghost var s := im.V();
    ImageInv(im.sb, im.d, im.freeblock, im.own, im.I, im.F);
    var root := im.Ialloc(T_DIR);
    ImageInv(im.sb, im.d, im.freeblock, im.own, im.I, im.F);
    FirstInode(im.sb, s, im.V());
    FlatNone(entries);
    NeedNone(files);
    InputSizes(im.sb, entries, files);
    hide Holding, InputOk, Need;
    var k := 0;
    while k < |entries|
      invariant k <= |entries| && im.Ok() && Synced(im.sb, im.V(), {}) && Neat(im.V()) && root == 1
      invariant im.freeinode == 2 + Filled(k) && Holding(im.sb, im.V(), Flat(entries[..k]), files[..Filled(k)])
      invariant im.freeblock == old(im.freeblock) + Need(files, k)
    {
      NeedMonotone(files, k + 1, |entries|);
      ok := NextEntry(im, entries, files, k);
      if !ok { return; }
      k := k + 1;
    }
    assert entries[..k] == entries && files[..Filled(k)] == files;
    ok := true;
  }

  /** One entry of the root directory, with its file. */
  method NextEntry(im: Image, entries: seq<seq<Byte>>, files: seq<seq<Byte>>, k: nat) returns (ok: bool)
    requires InputOk(im.sb, entries, files) && im.Ok() && Synced(im.sb, im.V(), {}) && Neat(im.V()) && k < |entries|
    requires im.freeinode == 2 + Filled(k) && Holding(im.sb, im.V(), Flat(entries[..k]), files[..Filled(k)])
    modifies im
    ensures im.Ok() && Filled(k + 1) <= |files|
    ensures var need := old(im.freeblock) + Need(files, k + 1) - Need(files, k);
            if ok then im.freeblock == need else need > Limit(im.sb)
    ensures ok ==> Synced(im.sb, im.V(), {}) && Neat(im.V()) && im.freeinode == 2 + Filled(k + 1)
    ensures ok ==> Holding(im.sb, im.V(), Flat(entries[..k + 1]), files[..Filled(k + 1)])
  {
    hide Inv, Synced, Written, File, Flat, Neat, Blocks, ImageOk, View, Holding;
    ghost var s := im.V();
    ImageInv(im.sb, im.d, im.freeblock, im.own, im.I, im.F);
    RootFits(im.sb, s, entries, files, k);
    NeedMore(files, k);
    FlatMore(entries, k);
    ok := im.Iappend(1, entries[k]);
    if !ok { return; }
    ImageInv(im.sb, im.d, im.freeblock, im.own, im.I, im.F);
    EntryAdded(im.sb, s, im.V(), Flat(entries[..k]), files[..Filled(k)], entries[k]);
    if k >= 2 {
      ok := AddFile(im, Flat(entries[..k + 1]), files[..k - 2], files[k - 2]);
      if !ok { return; }
      assert files[..k - 2] + [files[k - 2]] == files[..k - 1];
    }
  }

  /** How many files have been added with the first k entries. */
  function Filled(k: nat): nat { if k < 2 then 0 else k - 2 }

  lemma InputSizes(sb: Sb, entries: seq<seq<Byte>>, files: seq<seq<Byte>>)
    requires InputOk(sb, entries, files)
    ensures |entries| == |files| + 2
  {
  }

  lemma NeedNone(files: seq<seq<Byte>>)
    ensures Need(files, 0) == 0
  {
  }

  lemma FlatNone(xs: seq<seq<Byte>>)
    ensures Flat(xs[..0]) == []
  {
  }

  lemma RootFits(sb: Sb, s: St, entries: seq<seq<Byte>>, files: seq<seq<Byte>>, k: nat)
    requires InputOk(sb, entries, files) && k < |entries| && Holding(sb, s, Flat(entries[..k]), files[..Filled(k)])
    ensures 1 in s.I && s.I[1].size == |Flat(entries[..k])| == k * DIRENT && |entries[k]| == DIRENT
    ensures s.I[1].size + |entries[k]| <= MAXBYTES && Filled(k + 1) <= |files|
  {
    FlatLength(entries[..k]);
  }

  /** ialloc() and iappend() of one file. */
  method AddFile(im: Image, ghost dir: seq<Byte>, ghost files: seq<seq<Byte>>, c: seq<Byte>) returns (ok: bool)
    requires im.Ok() && Synced(im.sb, im.V(), {}) && Neat(im.V()) && Holding(im.sb, im.V(), dir, files)
    requires im.freeinode == |files| + 2 < im.sb.ninodes && |c| <= MAXBYTES
    modifies im
    ensures im.Ok() && if ok then im.freeblock == old(im.freeblock) + Blocks(|c|) else old(im.freeblock) + Blocks(|c|) > Limit(im.sb)
    ensures ok ==> Synced(im.sb, im.V(), {}) && Neat(im.V()) && Holding(im.sb, im.V(), dir, files + [c])
    ensures ok ==> im.freeinode == old(im.freeinode) + 1
  {
    hide Inv, Synced, Written, File, Flat, Neat, Blocks, ImageOk, View;
    ghost var s := im.V();
    ImageInv(im.sb, im.d, im.freeblock, im.own, im.I, im.F);
    assert im.I[im.freeinode] == BlankInode();
    NoBlocks();
    var i := im.Ialloc(T_FILE);
    ImageInv(im.sb, im.d, im.freeblock, im.own, im.I, im.F);
    ghost var t := im.V();
    InodeTaken(im.sb, s, t, i, dir, files);
    ok := im.Iappend(i, c);
    if !ok { return; }
    ImageInv(im.sb, im.d, im.freeblock, im.own, im.I, im.F);
    FileFilled(im.sb, t, im.V(), i, dir, files, c);
  }

  /** Rounding the size of the root directory leaves its entries and all files. */
  lemma RootKept(sb: Sb, s: St, t: St, dir: seq<Byte>, files: seq<seq<Byte>>)
    requires Inv(sb, s) && Holding(sb, s, dir, files) && 2 <= sb.ninodes
    requires t.F == s.F && t.I == s.I[1 := s.I[1].(size := (s.I[1].size / BSIZE + 1) * BSIZE)]
    ensures 1 in t.I && 1 in t.F && |t.F[1]| == MAXBYTES && |dir| <= MAXBYTES && t.F[1][..|dir|] == dir
    ensures Linked1(t.I[1], T_DIR)
    ensures forall k :: 0 <= k < |files| ==> HoldsFile(t, k + 2, files[k])
    ensures forall i: nat :: i < sb.ninodes && (i == 0 || |files| + 2 <= i) ==> i in t.I && t.I[i] == BlankInode()
  {
    hide Inv;
    FileIs(sb, s, 1);
    forall k | 0 <= k < |files| ensures HoldsFile(t, k + 2, files[k]) {
      assert HoldsFile(s, k + 2, files[k]);
    }
  }

  /** It leaves the blocks as they are. */
  lemma RootNeat(sb: Sb, s: St, t: St, e: nat)
    requires Inv(sb, s) && Inv(sb, t) && Neat(s) && 1 in s.I && s.I[1].size == e && t.own == s.own && 1 in t.I && t.I == s.I[1 := t.I[1]]
    ensures Snug(t.own, t.I, 1, e) && Covered(t.d, t.I[1], e)
  {
    hide Inv, Covered;
    NeatAt(s, 1);
    LowestSame(s.own);
    CoveredKept(sb, s, t, 1, e);
    forall b | b in t.own ensures InSize(t.own[b], t.I, 1, e) { assert InSize(s.own[b], s.I, 1, e); }
  }

  /** What mkfs leaves on the disk for these entries and files. */
  ghost predicate Made(sb: Sb, s: St, entries: seq<seq<Byte>>, files: seq<seq<Byte>>) {
    && Inv(sb, s) && Synced(sb, s, {}) && NoLoose(s.own) && 1 in s.I && 1 in s.F && |s.F[1]| == MAXBYTES
    && |Flat(entries)| <= MAXBYTES && s.F[1][..|Flat(entries)|] == Flat(entries)
    && s.I[1].size == (|Flat(entries)| / BSIZE + 1) * BSIZE && Linked1(s.I[1], T_DIR)
    && (forall k :: 0 <= k < |files| ==> HoldsFile(s, k + 2, files[k]))
    && (forall i: nat :: i < sb.ninodes && (i == 0 || |files| + 2 <= i) ==> i in s.I && s.I[i] == BlankInode())
    && Snug(s.own, s.I, 1, |Flat(entries)|) && Covered(s.d, s.I[1], |Flat(entries)|)
  }

  /** The image has room: every block needed exists, and one bitmap block covers them all. */
  predicate RoomFor(sb: Sb, files: seq<seq<Byte>>) {
    var n := Nmeta(sb) + Need(files, |files| + 2);
    n <= sb.size && n < BPB
  }

  /**
    main() of mkfs. The image holds a file system in which every inode is on disk, every block in
    use has one owner, the root directory begins with the entries and each file has its contents.
    Every file has exactly the blocks its size asks for, the root those of its entries. It takes
    exactly the blocks this needs and fails exactly when the image has too few. No file has
    a hole exactly if the entries do not end on a block boundary.
  */
  method MakeImage(sb: Sb, superblock: Block, entries: seq<seq<Byte>>, files: seq<seq<Byte>>)
    returns (ok: bool, im: Image)
    requires SbOk(sb) && Nmeta(sb) <= BPB && InputOk(sb, entries, files)
    ensures im.sb == sb && (ok <==> RoomFor(sb, files))
    ensures ok ==> Made(sb, St(im.d, im.own, im.I, im.F), entries, files)
    ensures ok ==> (Consistent(sb, St(im.d, im.own, im.I, im.F)) <==> |entries| * DIRENT % BSIZE != 0)
    ensures ok ==> im.freeblock == Nmeta(sb) + Need(files, |entries|) && forall b: nat :: b in im.own <==> b < im.freeblock
    ensures ok ==> |im.d| == sb.size && Booting(im.d, superblock) && forall b: nat :: 2 <= b < sb.inodestart ==> im.d[b] == Zeros()
  {
    hide Inv, Synced, NoLoose, File, Flat, Consistent, Neat, AllCovered, ImageOk, View, Need, Snug, Covered;
    im := new Image(sb, superblock);
    ok := Populate(im, entries, files);
    if !ok { return; }
    FlatLength(entries);
    ghost var s := im.V();
    ImageInv(im.sb, im.d, im.freeblock, im.own, im.I, im.F);
    im.FixRoot(1);
    ImageInv(im.sb, im.d, im.freeblock, im.own, im.I, im.F);
    RootKept(sb, s, im.V(), Flat(entries), files);
    RootNeat(sb, s, im.V(), |Flat(entries)|);
    if im.freeblock == BPB { return false, im; }
    im.Balloc();
  }

  /** xv6's own geometry: 2000 blocks, 200 inodes, 30 log blocks. */
  const XV6: Sb := Sb(2000, 200, 32, 45)

  /** A root directory of 64 entries, which fill one block, gives an image with a hole. */
  method HoledImage(superblock: Block) returns (im: Image)
    ensures Made(XV6, St(im.d, im.own, im.I, im.F), seq(64, _ => seq(DIRENT, _ => 0)), seq(62, _ => []))
    ensures !Consistent(XV6, St(im.d, im.own, im.I, im.F))
  {
    hide Made, Consistent;
    var entries, files: seq<seq<Byte>> := seq(64, _ => seq(DIRENT, _ => 0)), seq(62, _ => []);
    var ok;
    NoFileBlocks(files);
    assert files[..Filled(64)] == files;
    ok, im := MakeImage(XV6, superblock, entries, files);
  }

  lemma {:induction false} NoFileBlocks(files: seq<seq<Byte>>)
    requires forall k :: 0 <= k < |files| ==> files[k] == []
    ensures AllBlocks(files) == 0
  {
    if files != [] { NoFileBlocks(files[..|files| - 1]); }
  }

  /** The loop of balloc(). */
  method BitmapBytes(used: nat) returns (buf: Block)
    requires used < BPB
    ensures forall k: nat :: k < BPB ==> (MapBit(buf, k) <==> k < used)
    ensures buf == BitsBlock(used)
  {
    hide PutMapBit, MapBit;
    buf := Zeros();
    var i := 0;
    while i < used
      invariant i <= used && buf == BitsBlock(i)
    {
      buf := PutMapBit(buf, i, true);
      i := i + 1;
    }
    forall k: nat | k < BPB ensures MapBit(buf, k) <==> k < used { BitsBlockAt(used, k); }
  }

  lemma LinkedView(sb: Sb, d: Disk, n: Uint, own: map<nat, Owner>, I: map<nat, Dinode>, F: map<nat, seq<Byte>>,
                   i: nat, k: nat, o: Owner)
    requires DiskOk(sb, d) && n < BPB && i in I && k <= NDIRECT
    ensures WithAddr(View(sb, d, n + 1, own[n := Loose], I, F), i, k, n, o)
            == View(sb, d, n + 1, own[n := o], I[i := I[i].(addrs := I[i].addrs[k := n])], F)
  {
    hide Marked;
    assert own[n := Loose][n := o] == own[n := o];
  }

  /** After taking and linking the next block the image is in order. */
  lemma StillOk(sb: Sb, s0: St, d: Disk, n: nat, own: map<nat, Owner>, o: Owner, I: map<nat, Dinode>,
                F: map<nat, seq<Byte>>, i: nat)
    requires DiskOk(sb, d) && Nmeta(sb) <= n < sb.size && n < BPB && Untouched(sb, d, n) && NoLoose(own) && o != Loose
    requires Grows(sb, s0, View(sb, d, n + 1, own[n := o], I, F), i)
    ensures ImageOk(sb, d, n + 1, own[n := o], I, F)
  {
    hide Inv, Marked;
  }

  lemma IndirectBelow(sb: Sb, d: Disk, n: nat, own: map<nat, Owner>, I: map<nat, Dinode>, F: map<nat, seq<Byte>>, i: nat)
    requires ImageOk(sb, d, n, own, I, F) && i in I && I[i].addrs[NDIRECT] != 0
    ensures Nmeta(sb) <= I[i].addrs[NDIRECT] < n
  {
    hide BitsOk, RolesOk;
    assert InodeOk(View(sb, d, n, own, I, F), i);
    BelowNext(sb, d, n, own, I, F, I[i].addrs[NDIRECT]);
  }

  lemma DataBelow(sb: Sb, d: Disk, n: nat, own: map<nat, Owner>, I: map<nat, Dinode>, F: map<nat, seq<Byte>>, i: nat,
                  bn: nat, x: nat)
    requires ImageOk(sb, d, n, own, I, F) && i in I && bn < MAXFILE && x != 0
    requires Addr(View(sb, d, n, own, I, F).d, I[i], bn) == x
    ensures Nmeta(sb) <= x < n && x < |d| && x != sb.bmapstart && i in F && |F[i]| == MAXBYTES
  {
    hide BitsOk, RolesOk, Marked, Addr;
    var s := View(sb, d, n, own, I, F);
    assert InodeOk(s, i) && LinkOk(s.d, s.own, s.I[i], i, bn);
    BelowNext(sb, d, n, own, I, F, x);
  }

  /** Listing the next block in the indirect block. */
  lemma EntryView(sb: Sb, d: Disk, n: Uint, own: map<nat, Owner>, I: map<nat, Dinode>, F: map<nat, seq<Byte>>, i: nat,
                  fbn: nat)
    requires DiskOk(sb, d) && n < BPB && i in I && NDIRECT <= fbn < MAXFILE
    requires Nmeta(sb) <= I[i].addrs[NDIRECT] < |d|
    ensures var ind := I[i].addrs[NDIRECT];
            WithEntry(View(sb, d, n + 1, own[n := Loose], I, F), i, fbn, n)
            == View(sb, d[ind := PutEntry(d[ind], fbn - NDIRECT, n)], n + 1, own[n := Data(i, fbn)], I, F)
  {
    hide Marked, PutEntry;
    var ind := I[i].addrs[NDIRECT];
    MarkedWrite(sb, d, n + 1, ind, PutEntry(d[ind], fbn - NDIRECT, n));
    assert own[n := Loose][n := Data(i, fbn)] == own[n := Data(i, fbn)];
  }

  lemma WroteOk(sb: Sb, s0: St, s: St, d: Disk, n: nat, own: map<nat, Owner>, I: map<nat, Dinode>,
                F: map<nat, seq<Byte>>, i: nat, f: seq<Byte>)
    requires DiskOk(sb, d) && Nmeta(sb) <= n <= sb.size && n <= BPB && Untouched(sb, d, n) && NoLoose(own)
    requires Wrote(sb, s0, View(sb, d, n, own, I, F), i, f)
    ensures ImageOk(sb, d, n, own, I, F)
  {
    hide Inv, Marked;
  }

  // ----- inodes of the image -----

  ghost predicate SameAddrsAll(d: Disk, e: Disk, x: Dinode) {
    forall n: nat {:trigger Addr(e, x, n)} :: n < MAXFILE ==> Addr(e, x, n) == Addr(d, x, n)
  }

  ghost predicate AllCovered(s: St) { forall i :: i in s.I ==> Covered(s.d, s.I[i], s.I[i].size) }

  lemma MarkedInode(sb: Sb, d: Disk, n: nat, i: nat, x: Dinode)
    requires DiskOk(sb, d) && n <= BPB && i < sb.ninodes
    ensures Ino(sb, Marked(sb, d, n), i) == Ino(sb, d, i)
    ensures Marked(sb, SetIno(sb, d, i, x), n) == SetIno(sb, Marked(sb, d, n), i, x)
  {
    hide InodeOf, PutInode, BitsBlock;
    assert Iblock(sb, i) < sb.bmapstart;
  }

  lemma StoreInode(sb: Sb, d: Disk, n: nat, own: map<nat, Owner>, I: map<nat, Dinode>, F: map<nat, seq<Byte>>, i: nat,
                   x: Dinode)
    requires ImageOk(sb, d, n, own, I, F) && i in I && x.addrs == I[i].addrs && x.size <= MAXBYTES
    ensures i < sb.ninodes && ImageOk(sb, SetIno(sb, d, i, x), n, own, I[i := x], F)
    ensures Marked(sb, SetIno(sb, d, i, x), n) == SetIno(sb, Marked(sb, d, n), i, x)
    ensures SameAddrsAll(Marked(sb, d, n), Marked(sb, SetIno(sb, d, i, x), n), x)
    ensures Synced(sb, View(sb, d, n, own, I, F), {i}) ==> Synced(sb, View(sb, SetIno(sb, d, i, x), n, own, I[i := x], F), {})
  {
    hide Inv, Marked, PutInode, Synced, Addr, NoLoose;
    var s := View(sb, d, n, own, I, F);
    InodeBlock(sb, s, i);
    MarkedInode(sb, d, n, i, x);
    FieldsOk(sb, s, i, x);
    var t := s.(I := I[i := x]);
    SyncOk(sb, t, i);
    SyncAddrs(sb, t, i);
    UntouchedWrite(sb, d, n, Iblock(sb, i), PutInode(d[Iblock(sb, i)], i % IPB, x));
    if Synced(sb, s, {i}) { SyncedSame(sb, s, t, i); SyncDone(sb, t, i); }
  }

  lemma SyncedSame(sb: Sb, s: St, t: St, i: nat)
    requires Synced(sb, s, {i}) && t.d == s.d && t.F == s.F && t.I.Keys == s.I.Keys
    requires forall j :: j in s.I && j != i ==> t.I[j] == s.I[j]
    ensures Synced(sb, t, {i})
  {
    hide Ino;
  }

  lemma ReadInode(sb: Sb, d: Disk, n: nat, own: map<nat, Owner>, I: map<nat, Dinode>, F: map<nat, seq<Byte>>, i: nat)
    requires ImageOk(sb, d, n, own, I, F) && Synced(sb, View(sb, d, n, own, I, F), {}) && i in I
    ensures i < sb.ninodes && Ino(sb, d, i) == I[i]
  {
    hide Inv, Marked, Ino, Untouched, NoLoose;
    MarkedInode(sb, d, n, i, I[i]);
  }

  lemma SyncedOthers(sb: Sb, s: St, i: nat)
    requires Synced(sb, s, {})
    ensures Synced(sb, s, {i})
  {
    hide Ino;
  }

  lemma SizedByAppend(s: St, i: nat, x: Dinode, off: nat, n: nat)
    requires i in s.I && off == s.I[i].size && off + n < 0x1_0000_0000 && x == s.I[i].(size := off + n)
    ensures x == if off + n > s.I[i].size then s.I[i].(size := off + n) else s.I[i]
  {
  }

  lemma AppendDone(sb: Sb, s0: St, s: St, t: St, i: nat, off: nat, src: seq<Byte>, x: Dinode)
    requires Inv(sb, s0) && i in s0.I && i in s.I && Inv(sb, t) && t.I == s.I[i := x] && t.F == s.F && t.own == s.own
    requires Written(s0, s.(I := s.I[i := x]), i, off, src) && KeepsLinks(s0.own, s.own)
    requires SameAddrsAll(s.d, t.d, x)
    requires Covered(s0.d, s0.I[i], s0.I[i].size) ==> Covered(s.d, x, x.size)
    ensures Written(s0, t, i, off, src)
    ensures AllCovered(s0) ==> AllCovered(t)
  {
    hide Inv, KeepsLinks, Addr;
    forall j | j in s0.I ensures File(t, j) == File(s.(I := s.I[i := x]), j) {}
    if AllCovered(s0) {
      forall j | j in t.I ensures Covered(t.d, t.I[j], t.I[j].size) {
        if j != i { CoveredKept(sb, s0, t, j, s0.I[j].size); }
      }
    }
  }

  lemma NeatAt(s: St, i: nat)
    requires Neat(s) && i in s.I
    ensures Snug(s.own, s.I, i, s.I[i].size) && Covered(s.d, s.I[i], s.I[i].size) && AllCovered(s)
  {
  }

  /** With the size of i brought up to date every file is neat again. */
  lemma NeatNow(s: St, t: St, i: nat, e: nat)
    requires Snug(s.own, s.I, i, e) && i in s.I && t.own == s.own && i in t.I && t.I == s.I[i := t.I[i]] && t.I[i].size == e
    requires AllCovered(t)
    ensures Neat(t)
  {
    hide AllCovered;
    forall j, b | j in t.I && b in t.own ensures InSize(t.own[b], t.I, j, t.I[j].size) {
      assert InSize(s.own[b], s.I, i, e);
    }
  }

  lemma OnlyInode(sb: Sb, s: St, t: St, i: nat)
    requires Grows(sb, s, t, i)
    ensures i in s.I && i in t.I && t.I == s.I[i := t.I[i]]
  {
    hide Inv, Synced, KeepsLinks;
  }

  lemma WritingCovers(sb: Sb, s0: St, s: St, i: nat, off: nat, src: seq<Byte>, tot: nat)
    requires Writing(sb, s0, s, i, off, src, tot) && Covered(s0.d, s0.I[i], s0.I[i].size)
    ensures Covered(s.d, s.I[i], off + tot)
  {
    hide Covered, Wrote;
  }

  lemma AllocDone(sb: Sb, s: St, t: St, i: nat)
    requires Inv(sb, s) && Inv(sb, t) && i in s.I && i in t.I && t.I == s.I[i := t.I[i]] && t.own == s.own
    requires t.I[i].size == 0 && s.I[i].size == 0
    ensures File(t, i) == [] && (Neat(s) ==> Neat(t))
  {
    hide Inv, Addr;
    if Neat(s) {
      NeatAt(s, i);
      forall j | j in t.I ensures Covered(t.d, t.I[j], t.I[j].size) {
        if j != i { CoveredKept(sb, s, t, j, s.I[j].size); }
      }
      NeatNow(s, t, i, 0);
    }
  }

  // ----- the first and the last step -----

  ghost function Upto(n: nat): (s: set<nat>)
    ensures forall b: nat :: b in s <==> b < n
  {
    if n == 0 then {} else Upto(n - 1) + {n - 1}
  }

  function ZeroDisk(sb: Sb): (d: Disk)
    ensures |d| == sb.size && forall b :: 0 <= b < |d| ==> d[b] == Zeros()
  {
    seq(sb.size, _ => Zeros())
  }

  lemma ZeroInode(s: nat)
    requires s < IPB
    ensures InodeOf(Zeros(), s) == BlankInode()
  {
    hide Words, Word, Half;
    var b := Zeros()[ISIZE * s..ISIZE * s + ISIZE];
    assert forall k :: 0 <= k < ISIZE ==> b[k] == 0;
    ZeroInts(b[0..2], b[8..12]);
    ZeroInts(b[2..4], b[8..12]);
    ZeroInts(b[4..6], b[8..12]);
    ZeroInts(b[6..8], b[8..12]);
    ZeroWords(b[12..]);
    assert Words(b[12..]) == NoAddrs();
  }

  lemma ZeroInts(h: seq<Byte>, w: seq<Byte>)
    requires |h| == 2 && |w| == 4 && (forall k :: 0 <= k < 2 ==> h[k] == 0) && (forall k :: 0 <= k < 4 ==> w[k] == 0)
    ensures Half(h) == 0 && Word(w) == 0
  {
  }

  lemma {:induction false} ZeroWords(b: seq<Byte>)
    requires |b| % 4 == 0 && forall k :: 0 <= k < |b| ==> b[k] == 0
    ensures forall k :: 0 <= k < |Words(b)| ==> Words(b)[k] == 0
  {
    if b != [] {
      assert b[..4][..2] == [0, 0] && b[..4][2..] == [0, 0];
      ZeroWords(b[4..]);
    }
  }

  lemma FreshImage(sb: Sb, d: Disk, own: map<nat, Owner>, I: map<nat, Dinode>, F: map<nat, seq<Byte>>)
    requires SbOk(sb) && Nmeta(sb) <= BPB && |d| == sb.size && (forall b :: 0 <= b < |d| && b != 1 ==> d[b] == Zeros())
    requires own == (map b | b in Upto(Nmeta(sb)) :: Meta)
    requires I == (map i | i in Upto(sb.ninodes) :: BlankInode()) && F == (map i | i in Upto(sb.ninodes) :: Fs.Blank())
    ensures ImageOk(sb, d, Nmeta(sb), own, I, F)
    ensures Synced(sb, View(sb, d, Nmeta(sb), own, I, F), {}) && Neat(View(sb, d, Nmeta(sb), own, I, F))
  {
    hide Marked, InodeOf, MapBit, InodeOk, Covered, Used, Ino;
    var s := View(sb, d, Nmeta(sb), own, I, F);
    forall b: nat | b < sb.size ensures Used(sb, s.d, b) <==> b in own { MarkedUsed(sb, d, Nmeta(sb), b); }
    forall i: nat | i < sb.ninodes ensures InodeOk(s, i) && Ino(sb, s.d, i) == I[i] && Covered(s.d, I[i], I[i].size) {
      FreshInode(sb, d, s, i);
    }
  }

  lemma FreshInode(sb: Sb, d: Disk, s: St, i: nat)
    requires DiskOk(sb, d) && Nmeta(sb) <= BPB && (forall b :: 0 <= b < |d| && b != 1 ==> d[b] == Zeros())
    requires s.d == Marked(sb, d, Nmeta(sb)) && i < sb.ninodes && i in s.I && i in s.F
    requires s.I[i] == BlankInode() && s.F[i] == Fs.Blank()
    ensures InodeOk(s, i) && Ino(sb, s.d, i) == BlankInode() && Covered(s.d, s.I[i], s.I[i].size)
  {
    hide BitsBlock, InodeOf;
    MarkedInode(sb, d, Nmeta(sb), i, BlankInode());
    ZeroInode(i % IPB);
  }

  lemma RootRounded(sb: Sb, s: St, t: St, i: nat, x: Dinode)
    requires Inv(sb, s) && Inv(sb, t) && i in s.I && AllCovered(s) && s.I[i].size + BSIZE <= MAXBYTES
    requires x == s.I[i].(size := (s.I[i].size / BSIZE + 1) * BSIZE)
    requires t.I == s.I[i := x] && t.own == s.own && SameAddrsAll(s.d, t.d, x)
    ensures AllCovered(t) <==> Addr(s.d, s.I[i], s.I[i].size / BSIZE) != 0
  {
    hide Inv, Entry;
    var size, n := s.I[i].size, s.I[i].size / BSIZE;
    LowestSame(s.own);
    forall j | j in t.I && j != i ensures Covered(t.d, t.I[j], t.I[j].size) { CoveredKept(sb, s, t, j, s.I[j].size); }
    forall k: nat | k < MAXFILE ensures Addr(t.d, x, k) == Addr(s.d, s.I[i], k) {
      assert Addr(t.d, x, k) == Addr(s.d, x, k);
    }
    assert n < MAXFILE && n * BSIZE < x.size;
    forall k: nat | k < MAXFILE && k * BSIZE < x.size && k != n ensures Addr(s.d, s.I[i], k) != 0 {
      assert k * BSIZE < size;
    }
    if Addr(s.d, s.I[i], n) == 0 {
      assert Addr(t.d, x, n) == 0 && !Covered(t.d, t.I[i], x.size);
    }
  }

  lemma OwnIsPrefix(sb: Sb, d: Disk, n: nat, own: map<nat, Owner>, I: map<nat, Dinode>, F: map<nat, seq<Byte>>)
    requires ImageOk(sb, d, n, own, I, F)
    ensures forall b: nat :: b in own <==> b < n
  {
    hide InodesOk, Used, Marked;
    var s := View(sb, d, n, own, I, F);
    forall b: nat ensures b in own <==> b < n {
      if b in own { assert RoleOk(sb, s, b); }
      if b < sb.size {
        MarkedUsed(sb, d, n, b);
        assert Used(sb, s.d, b) <==> b in own;
      }
    }
  }
}
