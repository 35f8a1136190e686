/**
  The budget of filewrite() (kernel/file.c) is tight: a write of one chunk on a consistent disk can
  log ten blocks, and on a disk with a hole eleven. Both are shown on disks that writei() and itrunc()
  reach from an image of mkfs. The file with the hole is the root directory, as mkfs leaves it; a
  directory cannot be opened for writing, which is why filewrite() itself stays within ten.
*/
module TightBudget {
  import opened FsDisk
  import opened Fs
  import opened FsOps
  import opened FileWrite
  import opened Param
  import Mkfs

  // ----- which blocks a write takes -----

  ghost function Members(f: seq<nat>): set<nat> { set b | b in f }

  /** f are the lowest free blocks. */
  ghost predicate Lowest(own: map<nat, Owner>, f: seq<nat>) {
    && (forall k :: 0 <= k < |f| ==> f[k] !in own)
    && (forall j, k :: 0 <= j < k < |f| ==> f[j] < f[k])
    && (forall c: nat :: c !in own && c !in f ==> forall k :: 0 <= k < |f| ==> f[k] < c)
  }

  lemma {:induction false} MembersCount(f: seq<nat>)
    requires forall j, k :: 0 <= j < k < |f| ==> f[j] != f[k]
    ensures |Members(f)| == |f|
  {
    if f != [] {
      var g, x := f[..|f| - 1], f[|f| - 1];
      MembersCount(g);
      assert f == g + [x];
      assert Members(f) == Members(g) + {x} && x !in Members(g);
    }
  }

  lemma {:induction false} SameCount(s: set<nat>, t: set<nat>)
    requires s <= t
    ensures |s| <= |t| && (|s| == |t| ==> s == t)
  {
    if s != {} {
      var x :| x in s;
      SameCount(s - {x}, t - {x});
    }
  }

  /** If m new blocks were taken, lowest first, they are the m lowest free ones. */
  lemma TakesLowest(own: map<nat, Owner>, own': map<nat, Owner>, taken: set<nat>, f: seq<nat>)
    requires LowestFirst(own, own') && Lowest(own, f) && |f| == |taken|
    requires (forall b :: b in taken ==> b in own' && b !in own) && |own'| == |own| + |taken|
    ensures taken == Members(f)
  {
    MembersCount(f);
    assert own.Keys !! taken && own.Keys + taken <= own'.Keys;
    assert |own.Keys + taken| == |own| + |taken|;
    SameCount(own.Keys + taken, own'.Keys);
    forall k | 0 <= k < |f| ensures f[k] in taken {
      if f[k] !in taken {
        forall b | b in taken ensures b in Members(f) - {f[k]} { assert Passed(own, own', b, f[k]); }
        SameCount(taken, Members(f) - {f[k]});
      }
    }
    SameCount(Members(f), taken);
  }

  // ----- what such a write logs -----

  /** The new blocks of a write lie under different bitmap blocks. */
  ghost predicate FarApart(sb: Sb, bs: seq<nat>) {
    forall j, k :: 0 <= j < k < |bs| ==> Bblock(sb, bs[j]) != Bblock(sb, bs[k])
  }

  /** Four blocks of a file, the last three new, and the new indirect block. */
  ghost predicate FourBlocks(sb: Sb, s0: St, s: St, i: nat, lo: nat, a: seq<nat>) {
    && Inv(sb, s) && i in s0.I && i in s.I && lo + 4 <= MAXFILE && lo + 3 >= NDIRECT && |a| == 5
    && a[0] == Addr(s.d, s.I[i], lo) != 0 && a[1] == Addr(s.d, s.I[i], lo + 1) != 0
    && a[2] == Addr(s.d, s.I[i], lo + 2) != 0 && a[3] == Addr(s.d, s.I[i], lo + 3) != 0
    && Addr(s0.d, s0.I[i], lo + 1) == 0 && Addr(s0.d, s0.I[i], lo + 2) == 0 && Addr(s0.d, s0.I[i], lo + 3) == 0
    && a[4] == s.I[i].addrs[NDIRECT] && a[4] != 0 && s0.I[i].addrs[NDIRECT] == 0
  }

  lemma FourLogs(sb: Sb, s0: St, s: St, i: nat, lo: nat, a: seq<nat>)
    requires FourBlocks(sb, s0, s, i, lo, a)
    ensures Logs(sb, s0, s, i, lo, lo + 4) ==
            {a[0], a[1], a[2], a[3], a[4]} + {Bblock(sb, a[1]), Bblock(sb, a[2]), Bblock(sb, a[3]), Bblock(sb, a[4])}
            + (if Addr(s0.d, s0.I[i], lo) == 0 then {Bblock(sb, a[0])} else {})
  {
    hide Inv, Addr, Bblock;
    assert Logs(sb, s0, s, i, lo, lo) == {};
    assert Logs(sb, s0, s, i, lo, lo + 1) == LogsAt(sb, s0, s, i, lo);
    assert Logs(sb, s0, s, i, lo, lo + 2) == Logs(sb, s0, s, i, lo, lo + 1) + LogsAt(sb, s0, s, i, lo + 1);
    assert Logs(sb, s0, s, i, lo, lo + 3) == Logs(sb, s0, s, i, lo, lo + 2) + LogsAt(sb, s0, s, i, lo + 2);
    assert Logs(sb, s0, s, i, lo, lo + 4) == Logs(sb, s0, s, i, lo, lo + 3) + LogsAt(sb, s0, s, i, lo + 3);
  }

  /** Data blocks, bitmap blocks and inode blocks are in different places. */
  lemma BlocksApart(sb: Sb, s0: St, s: St, i: nat, lo: nat, a: seq<nat>)
    requires FourBlocks(sb, s0, s, i, lo, a)
    ensures a[0] != a[1] && a[0] != a[2] && a[0] != a[3] && a[0] != a[4] && a[1] != a[2] && a[1] != a[3] && a[1] != a[4]
    ensures a[2] != a[3] && a[2] != a[4] && a[3] != a[4] && i < sb.ninodes
    ensures forall k, l :: 0 <= k < 5 && 0 <= l < 5 ==> Iblock(sb, i) < Bblock(sb, a[k]) < a[l]
  {
    hide BitsOk, Entry;
    assert InodeOk(s, i);
    forall k: nat | k < 4 ensures a[k] in s.own && s.own[a[k]] == Data(i, lo + k) && Nmeta(sb) <= a[k] < sb.size {
      assert LinkOk(s.d, s.own, s.I[i], i, lo + k) && RoleOk(sb, s, a[k]);
    }
    assert RoleOk(sb, s, a[4]);
    forall k | 0 <= k < 5 ensures Iblock(sb, i) < sb.bmapstart <= Bblock(sb, a[k]) < Nmeta(sb) <= a[k] {}
  }

  lemma Ten(x: seq<nat>, y: seq<nat>, z: nat)
    requires |x| == 5 && |y| == 4
    requires x[0] != x[1] && x[0] != x[2] && x[0] != x[3] && x[0] != x[4] && x[1] != x[2] && x[1] != x[3] && x[1] != x[4]
    requires x[2] != x[3] && x[2] != x[4] && x[3] != x[4]
    requires y[0] != y[1] && y[0] != y[2] && y[0] != y[3] && y[1] != y[2] && y[1] != y[3] && y[2] != y[3]
    requires forall k, l :: 0 <= k < 4 && 0 <= l < 5 ==> z < y[k] < x[l]
    ensures |{x[0], x[1], x[2], x[3], x[4]} + {y[0], y[1], y[2], y[3]} + {z}| == 10
  {
    var d, m := {x[0], x[1], x[2], x[3], x[4]}, {y[0], y[1], y[2], y[3]};
    assert |d| == 5 && |m| == 4 && d !! m && z !in d + m;
  }

  /**
    The bound of ten is reached: an unaligned chunk whose last three blocks and indirect block are
    new, all under different bitmap blocks, logs exactly ten blocks.
  */
  lemma TenBlocks(sb: Sb, s0: St, s: St, i: nat, lo: nat, a: seq<nat>)
    requires FourBlocks(sb, s0, s, i, lo, a) && Addr(s0.d, s0.I[i], lo) != 0 && FarApart(sb, a[1..])
    ensures |{} + {Iblock(sb, i)} + Logs(sb, s0, s, i, lo, lo + 4)| == MAXOPBLOCKS
  {
    hide FourBlocks, Bblock, Iblock, Addr, Logs;
    FiveOf(sb, s0, s, i, lo, a);
    FourLogs(sb, s0, s, i, lo, a);
    BlocksApart(sb, s0, s, i, lo, a);
    var y := [Bblock(sb, a[1]), Bblock(sb, a[2]), Bblock(sb, a[3]), Bblock(sb, a[4])];
    Apart4(sb, a[1..]);
    Ten(a, y, Iblock(sb, i));
    Reorder({a[0], a[1], a[2], a[3], a[4]}, {y[0], y[1], y[2], y[3]}, {}, Iblock(sb, i));
  }

  lemma Reorder(d: set<nat>, m: set<nat>, e: set<nat>, z: nat)
    ensures {} + {z} + (d + m + e) == d + m + {z} + e
  {
  }

  /** Without the no-holes invariant it would be exceeded: a hole at an unaligned start costs an eleventh block. */
  lemma ElevenBlocks(sb: Sb, s0: St, s: St, i: nat, lo: nat, a: seq<nat>)
    requires FourBlocks(sb, s0, s, i, lo, a) && Addr(s0.d, s0.I[i], lo) == 0 && FarApart(sb, a)
    ensures |{} + {Iblock(sb, i)} + Logs(sb, s0, s, i, lo, lo + 4)| == MAXOPBLOCKS + 1
  {
    hide FourBlocks, Bblock, Iblock, Addr, Logs;
    FiveOf(sb, s0, s, i, lo, a);
    FourLogs(sb, s0, s, i, lo, a);
    BlocksApart(sb, s0, s, i, lo, a);
    var y, b := [Bblock(sb, a[1]), Bblock(sb, a[2]), Bblock(sb, a[3]), Bblock(sb, a[4])], Bblock(sb, a[0]);
    Apart4(sb, a[1..]);
    Ten(a, y, Iblock(sb, i));
    Reorder({a[0], a[1], a[2], a[3], a[4]}, {y[0], y[1], y[2], y[3]}, {b}, Iblock(sb, i));
    assert b != y[0] && b != y[1] && b != y[2] && b != y[3];
    OneMore({a[0], a[1], a[2], a[3], a[4]} + {y[0], y[1], y[2], y[3]} + {Iblock(sb, i)}, b);
  }

  lemma OneMore(ten: set<nat>, b: nat)
    requires b !in ten
    ensures |ten + {b}| == |ten| + 1
  {
  }

  lemma FiveOf(sb: Sb, s0: St, s: St, i: nat, lo: nat, a: seq<nat>)
    requires FourBlocks(sb, s0, s, i, lo, a)
    ensures |a| == 5 && i in s0.I && i in s.I && lo + 4 <= MAXFILE
  {
  }

  lemma Apart4(sb: Sb, b: seq<nat>)
    requires |b| == 4 && FarApart(sb, b)
    ensures var y := [Bblock(sb, b[0]), Bblock(sb, b[1]), Bblock(sb, b[2]), Bblock(sb, b[3])];
            y[0] != y[1] && y[0] != y[2] && y[0] != y[3] && y[1] != y[2] && y[1] != y[3] && y[2] != y[3]
  {
  }

  // ----- a chunk across the end of the direct blocks -----

  /** Inode i has no indirect block, and off lies inside its last direct block. */
  ghost predicate Site(sb: Sb, s: St, i: nat, off: nat) {
    && Inv(sb, s) && NoLoose(s.own) && i in s.I && s.I[i].addrs[NDIRECT] == 0
    && off / BSIZE == NDIRECT - 1 && off % BSIZE != 0
  }

  ghost function Spot(s: St, i: nat): (a: seq<nat>)
    requires i in s.I
    ensures |a| == 5
  {
    [Addr(s.d, s.I[i], 11), Addr(s.d, s.I[i], 12), Addr(s.d, s.I[i], 13), Addr(s.d, s.I[i], 14), s.I[i].addrs[NDIRECT]]
  }

  /** A block the file did not have was free. */
  lemma WasFree(sb: Sb, s0: St, s: St, i: nat, n: nat)
    requires Inv(sb, s0) && Inv(sb, s) && NoLoose(s0.own) && KeepsLinks(s0.own, s.own) && i in s0.I && i in s.I && n < MAXFILE
    requires Addr(s0.d, s0.I[i], n) == 0 && Addr(s.d, s.I[i], n) != 0
    ensures Addr(s.d, s.I[i], n) in s.own && Addr(s.d, s.I[i], n) !in s0.own
  {
    hide BitsOk, Entry;
    var a := Addr(s.d, s.I[i], n);
    assert InodeOk(s, i) && LinkOk(s.d, s.own, s.I[i], i, n) && RoleOk(sb, s, a);
    assert a in s0.own ==> RoleOk(sb, s0, a);
  }

  lemma IndirectWasFree(sb: Sb, s0: St, s: St, i: nat)
    requires Inv(sb, s0) && Inv(sb, s) && NoLoose(s0.own) && KeepsLinks(s0.own, s.own) && i in s0.I && i in s.I
    requires s0.I[i].addrs[NDIRECT] == 0 && s.I[i].addrs[NDIRECT] != 0
    ensures s.I[i].addrs[NDIRECT] in s.own && s.I[i].addrs[NDIRECT] !in s0.own
  {
    hide BitsOk, Entry;
    var a := s.I[i].addrs[NDIRECT];
    assert InodeOk(s, i) && RoleOk(sb, s, a);
    assert a in s0.own ==> RoleOk(sb, s0, a);
  }

  lemma FourTouched(off: nat)
    requires off / BSIZE == NDIRECT - 1 && off % BSIZE != 0
    ensures Touched(off, MAXCHUNK) == 4
  {
  }

  /** Such a write touches four blocks, of which the last three and the indirect block are new. */
  lemma WritesFour(sb: Sb, s0: St, s: St, i: nat, off: nat, l: set<nat>)
    requires Site(sb, s0, i, off) && Inv(sb, s) && Exactly(sb, s0, s, i, off, MAXCHUNK, l)
    ensures i in s.I && FourBlocks(sb, s0, s, i, 11, Spot(s, i)) && KeepsLinks(s0.own, s.own)
    ensures l == {} + {Iblock(sb, i)} + Logs(sb, s0, s, i, 11, 15)
    ensures |s.own| == |s0.own| + (if Addr(s0.d, s0.I[i], 11) == 0 then 5 else 4)
  {
    hide Inv, Entry, Logs, Framed, KeepsLinks, Bblock, Iblock, Touched;
    FourTouched(off);
    assert Addr(s.d, s.I[i], 11) != 0 && Addr(s.d, s.I[i], 12) != 0 && Addr(s.d, s.I[i], 13) != 0 && Addr(s.d, s.I[i], 14) != 0;
    IndirectNeeded(s.d, s.I[i], 12);
    FourNew(s0, i);
  }

  lemma FourNew(s0: St, i: nat)
    requires i in s0.I && s0.I[i].addrs[NDIRECT] == 0
    ensures NewCount(s0, i, 11, 15) == if Addr(s0.d, s0.I[i], 11) == 0 then 4 else 3
  {
    hide Addr;
    forall n: nat | 12 <= n < 15 ensures Addr(s0.d, s0.I[i], n) == 0 { IndirectAddr(s0.d, s0.I[i], n); }
    assert NewCount(s0, i, 11, 11) == 0;
    assert NewCount(s0, i, 11, 12) == if Addr(s0.d, s0.I[i], 11) == 0 then 1 else 0;
    assert NewCount(s0, i, 11, 13) == NewCount(s0, i, 11, 12) + 1;
    assert NewCount(s0, i, 11, 14) == NewCount(s0, i, 11, 13) + 1;
  }

  /** Different members of a list of blocks under different bitmap blocks. */
  lemma FarMembers(sb: Sb, f: seq<nat>, a: seq<nat>)
    requires FarApart(sb, f) && (forall k :: 0 <= k < |a| ==> a[k] in f) && forall j, k :: 0 <= j < k < |a| ==> a[j] != a[k]
    ensures FarApart(sb, a)
  {
    hide Bblock;
    forall j, k | 0 <= j < k < |a| ensures Bblock(sb, a[j]) != Bblock(sb, a[k]) {
      var x :| 0 <= x < |f| && f[x] == a[j];
      var y :| 0 <= y < |f| && f[y] == a[k];
      if x < y { assert Bblock(sb, f[x]) != Bblock(sb, f[y]); } else { assert Bblock(sb, f[y]) != Bblock(sb, f[x]); }
    }
  }

  /** The bound is reached: if the four lowest free blocks are under different bitmap blocks, the write logs ten blocks. */
  lemma TenLogged(sb: Sb, s0: St, s: St, i: nat, off: nat, l: set<nat>, f: seq<nat>)
    requires Site(sb, s0, i, off) && Addr(s0.d, s0.I[i], 11) != 0 && Inv(sb, s) && Exactly(sb, s0, s, i, off, MAXCHUNK, l)
    requires Lowest(s0.own, f) && |f| == 4 && FarApart(sb, f)
    ensures |l| == MAXOPBLOCKS
  {
    hide Inv, NoLoose, Exactly, FarApart, Lowest, KeepsLinks, FourBlocks, Addr, Bblock, Logs;
    WritesFour(sb, s0, s, i, off, l);
    var a := Spot(s, i);
    BlocksApart(sb, s0, s, i, 11, a);
    FourFree(sb, s0, s, i, a);
    var b := a[1..];
    forall j, k | 0 <= j < k < |b| ensures b[j] != b[k] {}
    MembersCount(b);
    LowestPart(s0.own, s.own);
    TakesLowest(s0.own, s.own, Members(b), f);
    forall k | 0 <= k < |b| ensures b[k] in f { assert b[k] in Members(b); }
    FarMembers(sb, f, b);
    TenBlocks(sb, s0, s, i, 11, a);
  }

  lemma LowestPart(own: map<nat, Owner>, own': map<nat, Owner>)
    requires KeepsLinks(own, own')
    ensures LowestFirst(own, own')
  {
  }

  lemma FourFree(sb: Sb, s0: St, s: St, i: nat, a: seq<nat>)
    requires FourBlocks(sb, s0, s, i, 11, a) && Inv(sb, s0) && NoLoose(s0.own) && KeepsLinks(s0.own, s.own)
    ensures forall k :: 1 <= k < 5 ==> a[k] in s.own && a[k] !in s0.own
    ensures Addr(s0.d, s0.I[i], 11) == 0 ==> a[0] in s.own && a[0] !in s0.own
  {
    hide Inv, NoLoose, KeepsLinks, Addr;
    WasFree(sb, s0, s, i, 12);
    WasFree(sb, s0, s, i, 13);
    WasFree(sb, s0, s, i, 14);
    IndirectWasFree(sb, s0, s, i);
    if Addr(s0.d, s0.I[i], 11) == 0 { WasFree(sb, s0, s, i, 11); }
  }

  /** With a hole where the write begins, and five such free blocks, it logs eleven. */
  lemma ElevenLogged(sb: Sb, s0: St, s: St, i: nat, off: nat, l: set<nat>, f: seq<nat>)
    requires Site(sb, s0, i, off) && Addr(s0.d, s0.I[i], 11) == 0 && Inv(sb, s) && Exactly(sb, s0, s, i, off, MAXCHUNK, l)
    requires Lowest(s0.own, f) && |f| == 5 && FarApart(sb, f)
    ensures |l| == MAXOPBLOCKS + 1
  {
    hide Inv, NoLoose, Exactly, FarApart, Lowest, KeepsLinks, FourBlocks, Addr, Bblock, Logs;
    WritesFour(sb, s0, s, i, off, l);
    var a := Spot(s, i);
    BlocksApart(sb, s0, s, i, 11, a);
    FourFree(sb, s0, s, i, a);
    forall j, k | 0 <= j < k < |a| ensures a[j] != a[k] {}
    MembersCount(a);
    LowestPart(s0.own, s.own);
    TakesLowest(s0.own, s.own, Members(a), f);
    forall k | 0 <= k < |a| ensures a[k] in f { assert a[k] in Members(a); }
    FarMembers(sb, f, a);
    ElevenBlocks(sb, s0, s, i, 11, a);
  }

  // ----- a disk on which this happens -----

  /** Between operations, and consistent if c; else a file may have a hole. */
  ghost predicate Sound(sb: Sb, s: St, c: bool) {
    Inv(sb, s) && Synced(sb, s, {}) && NoLoose(s.own) && (c ==> Consistent(sb, s))
  }

  lemma SoundParts(sb: Sb, s: St, c: bool)
    requires Sound(sb, s, c)
    ensures Inv(sb, s) && Synced(sb, s, {}) && NoLoose(s.own) && (c ==> Consistent(sb, s))
  {
  }

  /** The blocks in use are the first n. */
  ghost predicate Packed(sb: Sb, s: St, n: nat, c: bool) {
    Sound(sb, s, c) && (forall b: nat :: b in s.own <==> b < n) && |s.own| == n
  }

  /** One more block, the lowest free one, and everything else as before. */
  ghost predicate Grown(sb: Sb, s: St, t: St, i: nat, k: nat, n: nat, c: bool) {
    && Packed(sb, t, n + 1, c) && i in t.I && t.I == s.I[i := t.I[i]] && t.own == s.own[n := Data(i, k)]
    && k < NDIRECT && i in s.I
    && forall j :: 0 <= j <= NDIRECT ==> t.I[i].addrs[j] == if j == k then n else s.I[i].addrs[j]
  }

  lemma PackedNext(sb: Sb, s: St, t: St, n: nat, c: bool)
    requires Packed(sb, s, n, c) && KeepsLinks(s.own, t.own) && |t.own| == n + 1 && n < sb.size && Inv(sb, t)
    ensures forall b: nat :: b in t.own <==> b < n + 1
  {
    hide Sound, Inv, KeepsLinks;
    AllBelow(n);
    assert s.own.Keys == Below(n);
    OneMoreKey(s.own, t.own, n);
    AllBelow(n + 1);
    SameCount(Below(n + 1), t.own.Keys);
  }

  /** The next block after the first n is taken before any later one. */
  lemma OneMoreKey(own: map<nat, Owner>, own': map<nat, Owner>, n: nat)
    requires KeepsLinks(own, own') && own.Keys == Below(n) && |own'| == n + 1
    ensures Below(n + 1) <= own'.Keys
  {
    AllBelow(n);
    if n !in own' {
      forall b | b in own'.Keys ensures b in Below(n) { assert Passed(own, own', b, n); }
      SameCount(own'.Keys, Below(n));
    }
  }

  /** A write of part of one new direct block, at the end of the file. */
  method PutBlock(fs: FileSys, ip: Inode, len: nat, ghost n: nat, ghost c: bool)
    requires Packed(fs.sb, fs.S(), n, c) && n + 2 <= fs.sb.size && 1 <= len <= BSIZE
    requires ip.inum in fs.I && fs.I[ip.inum] == ip.f && ip.f.size % BSIZE == 0 && ip.f.size / BSIZE < NDIRECT
    requires ip.f.addrs[ip.f.size / BSIZE] == 0
    modifies fs, ip
    ensures Grown(fs.sb, old(fs.S()), fs.S(), ip.inum, old(ip.f.size) / BSIZE, n, c) && fs.I[ip.inum] == ip.f
    ensures ip.f.size == old(ip.f.size) + len
  {
    hide Inv, Synced, NoLoose, Covered, Written, Full, Logs, Iblock, Spots, Paid, KeepsLinks, File, Consistent, Need;
    ghost var s0, i, k := fs.S(), ip.inum, ip.f.size / BSIZE;
    SyncedButOne(fs.sb, s0, i);
    var zero: Byte := 0;
    var src := seq(len, _ => zero);
    OneTouched(ip.f.size, len);
    OneNeeded(s0, i, k);
    CoveredIf(fs.sb, s0, i, c);
    ghost var off := ip.f.size;
    var ok, r := fs.Writei(ip, ip.f.size, src);
    assert ok;
    InodesSame(s0, fs.S(), i, off, src);
    if c { WriteConsistent(fs.sb, s0, fs.S(), i); }
    BlockPut(fs.sb, s0, fs.S(), i, k, n, fs.logged, old(fs.logged), c);
    SizeIs(fs.sb, s0, fs.S(), i, off, src);
  }

  lemma OneNeeded(s: St, i: nat, k: nat)
    requires i in s.I && k < NDIRECT
    ensures Need(s, i, k, k + 1) <= 1
  {
    hide Addr;
  }

  lemma CoveredIf(sb: Sb, s: St, i: nat, c: bool)
    requires Sound(sb, s, c) && i in s.I
    ensures c ==> Covered(s.d, s.I[i], s.I[i].size)
  {
    hide Inv, Synced, NoLoose, Covered;
  }

  lemma OneTouched(off: nat, len: nat)
    requires off % BSIZE == 0 && off / BSIZE < NDIRECT && 1 <= len <= BSIZE
    ensures Touched(off, len) == 1 && !Rejected(off, len, off)
  {
  }

  lemma SizeIs(sb: Sb, s: St, t: St, i: nat, off: nat, src: seq<Byte>)
    requires Inv(sb, s) && Inv(sb, t) && i in s.I && off == s.I[i].size && Written(s, t, i, off, src)
    ensures i in t.I && t.I[i].size == off + |src|
  {
    hide Inv;
    FileIs(sb, s, i);
    FileIs(sb, t, i);
  }

  lemma BlockPut(sb: Sb, s: St, t: St, i: nat, k: nat, n: nat, l: set<nat>, l0: set<nat>, c: bool)
    requires Packed(sb, s, n, c) && Sound(sb, t, c) && KeepsLinks(s.own, t.own) && n < sb.size && k < NDIRECT
    requires i in s.I && i in t.I && t.I == s.I[i := t.I[i]] && s.I[i].addrs[k] == 0
    requires Paid(sb, s, t, l0, l, i, k, k + 1) && Spots(s, t, i, k, k + 1) && KeepsIndirect(s, t, i, k + 1)
    ensures Grown(sb, s, t, i, k, n, c)
  {
    hide Inv, Synced, Consistent, Framed, KeepsLinks, NoLoose;
    DirectAddr(s.d, s.I[i], k);
    DirectAddr(t.d, t.I[i], k);
    assert NewCount(s, i, k, k) == 0;
    assert NewCount(s, i, k, k + 1) == 1;
    PackedNext(sb, s, t, n, c);
    assert Addr(t.d, t.I[i], k) != 0;
    WasFree(sb, s, t, i, k);
    assert t.I[i].addrs[k] == n;
    forall j: nat | j < NDIRECT && j != k ensures t.I[i].addrs[j] == s.I[i].addrs[j] {
      DirectAddr(s.d, s.I[i], j);
      DirectAddr(t.d, t.I[i], j);
      assert Addr(t.d, t.I[i], j) == Addr(s.d, s.I[i], j);
    }
    SameOwners(sb, s, t, i, k, n);
  }

  lemma SameOwners(sb: Sb, s: St, t: St, i: nat, k: nat, n: nat)
    requires Inv(sb, s) && Inv(sb, t) && NoLoose(s.own) && KeepsLinks(s.own, t.own) && i in t.I && k < NDIRECT
    requires (forall b: nat :: b in s.own <==> b < n) && (forall b: nat :: b in t.own <==> b < n + 1) && t.I[i].addrs[k] == n
    ensures t.own == s.own[n := Data(i, k)]
  {
    hide BitsOk, Entry;
    assert InodeOk(t, i) && LinkOk(t.d, t.own, t.I[i], i, k);
    assert n < Nmeta(sb) ==> n in s.own;
    forall b | b in s.own ensures t.own[b] == s.own[b] { assert RoleOk(sb, s, b); }
  }

  /** A disk with five bitmap blocks, on which the first data block is number 8179. */
  const BIG: Sb := Sb(40000, 130256, 32, 8174)
  const FIRST: nat := 8179
  const END: nat := 32768

  /** The inode that the loop below gives block b, if the first file has k blocks. */
  function InodeOfBlock(b: nat, k: nat): int { b - (FIRST + k) + 2 }

  /** Inode i as the disk has it. */
  method Fetch(fs: FileSys, i: nat, ghost c: bool) returns (ip: Inode)
    requires Sound(fs.sb, fs.S(), c) && i in fs.I
    ensures fresh(ip) && ip.inum == i && ip.f == fs.I[i]
  {
    hide Consistent, InodesOk, RolesOk, BitsOk, NoLoose, InodeOf;
    ip := new Inode(i, Ino(fs.sb, fs.d, i));
  }

  /** The file system mkfs makes without any files. */
  method Empty() returns (fs: FileSys)
    ensures fresh(fs) && fs.sb == BIG && Packed(BIG, fs.S(), FIRST, true)
    ensures forall i: nat :: i < BIG.ninodes ==> i in fs.I && fs.I[i] == Mkfs.BlankInode()
  {
    hide Consistent, Inv, NoLoose, Synced, Mkfs.ImageOk, Mkfs.View, Mkfs.AllCovered, Mkfs.Snug, Mkfs.BlankInode;
    BigSizes();
    var im := new Mkfs.Image(BIG, Zeros());
    ghost var I := im.I;
    Mkfs.ImageInv(im.sb, im.d, im.freeblock, im.own, im.I, im.F);
    im.Balloc();
    KeysCount(im.own, FIRST);
    fs := new FileSys(BIG, im.d, im.own, im.I, im.F);
  }

  lemma KeysCount(own: map<nat, Owner>, n: nat)
    requires forall b: nat :: b in own <==> b < n
    ensures |own| == n
  {
    AllBelow(n);
    assert own.Keys == Below(n);
  }

  lemma BigSizes()
    ensures SbOk(BIG) && Nmeta(BIG) == FIRST && FIRST < BPB
  {
  }

  /** A file with k direct blocks, the last of which holds last bytes. */
  ghost predicate Direct(x: Dinode, k: nat, last: nat) {
    && k <= NDIRECT && x.size == (if k == 0 then 0 else (k - 1) * BSIZE + last)
    && forall j :: 0 <= j <= NDIRECT ==> (x.addrs[j] != 0 <==> j < k)
  }

  ghost predicate NoBlocks(x: Dinode) { x.size == 0 && forall j :: 0 <= j <= NDIRECT ==> x.addrs[j] == 0 }

  /** The inodes from i on are empty. */
  ghost predicate Blanks(I: map<nat, Dinode>, i: nat) {
    forall q: nat :: i <= q < BIG.ninodes ==> q in I && NoBlocks(I[q])
  }

  /** Inode 1 gets k blocks. */
  method FirstFile(fs: FileSys, k: nat, last: nat, ghost c: bool)
    requires fs.sb == BIG && Packed(BIG, fs.S(), FIRST, c) && Blanks(fs.I, 1) && 0 < k <= NDIRECT && 1 <= last <= BSIZE
    modifies fs
    ensures Packed(BIG, fs.S(), FIRST + k, c) && Blanks(fs.I, 2) && 1 in fs.I && Direct(fs.I[1], k, last)
    ensures forall b: nat :: FIRST <= b < FIRST + k ==> b in fs.own && fs.own[b].Data? && fs.own[b].i == 1
    ensures forall b: nat :: b < FIRST ==> b in fs.own && fs.own[b] == old(fs.own)[b]
  {
    hide Sound;
    var ip := Fetch(fs, 1, c);
    var j := 0;
    while j < k
      invariant j <= k && fs.sb == BIG && Packed(BIG, fs.S(), FIRST + j, c) && Blanks(fs.I, 2) && ip.inum == 1 && fresh(ip)
      invariant 1 in fs.I && fs.I[1] == ip.f && Direct(ip.f, j, if j == k then last else BSIZE)
      invariant forall b: nat :: FIRST <= b < FIRST + j ==> b in fs.own && fs.own[b].Data? && fs.own[b].i == 1
      invariant forall b: nat :: b < FIRST ==> b in fs.own && fs.own[b] == old(fs.own)[b]
    {
      PutBlock(fs, ip, if j == k - 1 then last else BSIZE, FIRST + j, c);
      j := j + 1;
    }
  }

  /** The blocks from n on belong to inodes 2, 3 and so on. */
  ghost predicate InTurn(own: map<nat, Owner>, n: nat, m: nat) {
    forall b: nat :: n <= b < m ==> b in own && own[b] == Data(b - n + 2, 0)
  }

  /** One-block files take all blocks up to END. */
  method Fill(fs: FileSys, n: nat, ghost c: bool)
    requires fs.sb == BIG && Packed(BIG, fs.S(), n, c) && Blanks(fs.I, 2) && 1 in fs.I && FIRST <= n <= END
    modifies fs
    ensures Packed(BIG, fs.S(), END, c) && 1 in fs.I && fs.I[1] == old(fs.I)[1] && InTurn(fs.own, n, END)
    ensures forall b: nat :: b < n ==> b in fs.own && fs.own[b] == old(fs.own)[b]
    ensures forall i: nat :: i < BIG.ninodes ==> i in fs.I
  {
    hide Sound, Grown;
    InodesThere(fs.S(), c);
    var m := n;
    while m < END
      invariant n <= m <= END && fs.sb == BIG && Packed(BIG, fs.S(), m, c) && Blanks(fs.I, m - n + 2) && InTurn(fs.own, n, m)
      invariant 1 in fs.I && fs.I[1] == old(fs.I)[1] && forall i: nat :: i < BIG.ninodes ==> i in fs.I
      invariant forall b: nat :: b < n ==> b in fs.own && fs.own[b] == old(fs.own)[b]
    {
      var i := m - n + 2;
      ghost var s := fs.S();
      var ip := Fetch(fs, i, c);
      PutBlock(fs, ip, 1, m, c);
      GrownParts(BIG, s, fs.S(), i, 0, m, c);
      m := m + 1;
    }
  }

  lemma GrownParts(sb: Sb, s: St, t: St, i: nat, k: nat, n: nat, c: bool)
    requires Grown(sb, s, t, i, k, n, c)
    ensures Packed(sb, t, n + 1, c) && i in t.I && t.I == s.I[i := t.I[i]] && t.own == s.own[n := Data(i, k)]
  {
    hide Packed;
  }

  lemma InodesThere(s: St, c: bool)
    requires Sound(BIG, s, c)
    ensures forall i: nat :: i < BIG.ninodes ==> i in s.I
  {
    hide BitsOk, RolesOk, InodesOk, NoLoose, Consistent;
  }

  /** Truncating a file with a single block frees that block. */
  method Drop(fs: FileSys, b: nat, i: nat, ghost c: bool)
    requires fs.sb == BIG && Sound(BIG, fs.S(), c) && i in fs.I && b in fs.own && fs.own[b] == Data(i, 0)
    requires forall x :: x in fs.own && OwnedBy(fs.own[x], i) ==> x == b
    modifies fs
    ensures Sound(BIG, fs.S(), c) && fs.I.Keys == old(fs.I).Keys && (forall j :: j in fs.I && j != i ==> fs.I[j] == old(fs.I)[j])
    ensures forall x :: x in fs.own <==> x in old(fs.own) && x != b
    ensures forall x :: x in fs.own ==> fs.own[x] == old(fs.own)[x]
  {
    hide Inv, Synced, Consistent, NoAddrs, Blank, Maps;
    ghost var s := fs.S();
    var ip := Fetch(fs, i, c);
    SyncedButOne(BIG, s, i);
    fs.Itrunc(ip);
    if c { TruncConsistent(BIG, s, fs.S(), i); }
  }

  /** The blocks given up in the end: each is under a bitmap block of its own. */
  const GAPS: seq<nat> := [8191, 8192, 16384, 24576]

  lemma GapsFar()
    ensures FarApart(BIG, GAPS + [END]) && FarApart(BIG, GAPS)
  {
  }

  /** All blocks up to END are in use except the first k of the gaps. */
  ghost predicate Gapped(own: map<nat, Owner>, n: nat, k: nat) {
    && k <= |GAPS| && (forall b: nat :: b in own <==> b < END && b !in GAPS[..k])
    && (forall b: nat :: n <= b && b in own ==> own[b] == Data(b - n + 2, 0))
    && (forall b: nat :: b < n && b in own ==> own[b] == Meta || (own[b].Data? && own[b].i == 1))
  }

  /** A consistent disk whose lowest free blocks are far apart, with a file of twelve blocks. */
  method Spread() returns (fs: FileSys)
    ensures fresh(fs) && fs.sb == BIG && Sound(BIG, fs.S(), true) && 1 in fs.I && Direct(fs.I[1], 12, 1)
    ensures Gapped(fs.own, FIRST + 12, |GAPS|) && |fs.own| <= END
  {
    hide Sound, Direct, Gapped, Packed, Blanks, InTurn;
    fs := Empty();
    MetaFirst(fs.S(), FIRST, true);
    AllBlank(fs.I);
    FirstFile(fs, 12, 1, true);
    ghost var own1 := fs.own;
    Fill(fs, FIRST + 12, true);
    NoGaps(fs.S(), own1, FIRST + 12, true);
    Dig(fs, FIRST + 12, true);
  }

  lemma AllBlank(I: map<nat, Dinode>)
    requires forall i: nat :: i < BIG.ninodes ==> i in I && I[i] == Mkfs.BlankInode()
    ensures Blanks(I, 1)
  {
  }

  /** The entries of a root directory of eleven full blocks. */
  const ENTRIES: nat := 704

  /** The same from an image whose root directory ends with a hole after eleven blocks. */
  method HoledSpread() returns (fs: FileSys)
    ensures fresh(fs) && fs.sb == BIG && Sound(BIG, fs.S(), false) && !Consistent(BIG, fs.S())
    ensures 1 in fs.I && Direct(fs.I[1].(size := 11 * BSIZE), 11, BSIZE) && fs.I[1].size == 12 * BSIZE
    ensures Gapped(fs.own, FIRST + 11, |GAPS|) && |fs.own| <= END
  {
    hide Sound, Direct, Gapped, Packed, Blanks, InTurn, Mkfs.Made, Consistent;
    BigSizes();
    var zero: Byte := 0;
    var entries, files: seq<seq<Byte>> := seq(ENTRIES, _ => seq(Mkfs.DIRENT, _ => zero)), seq(ENTRIES - 2, _ => []);
    RootRoom(files);
    var ok, im := Mkfs.MakeImage(BIG, Zeros(), entries, files);
    assert ok;
    fs := new FileSys(BIG, im.d, im.own, im.I, im.F);
    KeysCount(im.own, FIRST + 11);
    ghost var s := fs.S();
    RootMade(s, entries, files);
    ghost var own1 := fs.own;
    Fill(fs, FIRST + 11, false);
    NoGaps(fs.S(), own1, FIRST + 11, false);
    Dig(fs, FIRST + 11, false);
    HoleStays(fs.S());
  }

  lemma RootRoom(files: seq<seq<Byte>>)
    requires |files| == ENTRIES - 2 && forall k :: 0 <= k < |files| ==> files[k] == []
    ensures Mkfs.RoomFor(BIG, files) && Mkfs.Need(files, ENTRIES) == 11
  {
    Mkfs.NoFileBlocks(files);
    assert files[..Mkfs.Filled(ENTRIES)] == files;
  }

  /** What the image has: eleven blocks for the root directory, none for any other inode. */
  lemma RootMade(s: St, entries: seq<seq<Byte>>, files: seq<seq<Byte>>)
    requires Mkfs.Made(BIG, s, entries, files) && |entries| == ENTRIES == |files| + 2 && |s.own| == FIRST + 11
    requires forall b: nat :: b in s.own <==> b < FIRST + 11
    requires (forall k :: 0 <= k < |entries| ==> |entries[k]| == Mkfs.DIRENT) && forall k :: 0 <= k < |files| ==> files[k] == []
    ensures Packed(BIG, s, FIRST + 11, false) && Blanks(s.I, 2) && 1 in s.I && s.I[1].size == 12 * BSIZE
    ensures Direct(s.I[1].(size := 11 * BSIZE), 11, BSIZE)
    ensures forall b: nat :: b < FIRST + 11 ==> s.own[b] == Meta || (s.own[b].Data? && s.own[b].i == 1)
  {
    hide Inv, Synced, NoLoose, Covered, Mkfs.Snug, Mkfs.Flat, File;
    Mkfs.FlatLength(entries);
    forall q: nat | 2 <= q < BIG.ninodes ensures q in s.I && NoBlocks(s.I[q]) {
      if q < ENTRIES { assert Mkfs.HoldsFile(s, q, files[q - 2]); }
      NoAddresses(s, q);
    }
    RootAddrs(s);
    forall b: nat | b < FIRST + 11 ensures s.own[b] == Meta || (s.own[b].Data? && s.own[b].i == 1) {
      RootOwns(s, b);
    }
  }

  lemma NoAddresses(s: St, q: nat)
    requires Inv(BIG, s) && q in s.I && q != 1 && s.I[q].size == 0 && Mkfs.Snug(s.own, s.I, 1, 11 * BSIZE)
    ensures NoBlocks(s.I[q])
  {
    hide BitsOk, RolesOk, Entry;
    assert InodeOk(s, q);
    forall j: nat | j <= NDIRECT ensures s.I[q].addrs[j] == 0 {
      var a := s.I[q].addrs[j];
      if j < NDIRECT { assert LinkOk(s.d, s.own, s.I[q], q, j); }
      assert a != 0 ==> Mkfs.InSize(s.own[a], s.I, 1, 11 * BSIZE);
    }
  }

  lemma RootAddrs(s: St)
    requires Inv(BIG, s) && 1 in s.I && Mkfs.Snug(s.own, s.I, 1, 11 * BSIZE) && Covered(s.d, s.I[1], 11 * BSIZE)
    ensures Direct(s.I[1].(size := 11 * BSIZE), 11, BSIZE)
  {
    hide BitsOk, RolesOk, Entry;
    assert InodeOk(s, 1);
    forall j: nat | j <= NDIRECT ensures s.I[1].addrs[j] != 0 <==> j < 11 {
      var a := s.I[1].addrs[j];
      if j < NDIRECT { assert LinkOk(s.d, s.own, s.I[1], 1, j) && Addr(s.d, s.I[1], j) == a; }
      assert a != 0 ==> Mkfs.InSize(s.own[a], s.I, 1, 11 * BSIZE);
    }
  }

  lemma RootOwns(s: St, b: nat)
    requires Inv(BIG, s) && NoLoose(s.own) && Mkfs.Snug(s.own, s.I, 1, 11 * BSIZE) && b in s.own && Blanks(s.I, 2)
    requires 0 in s.I ==> s.I[0].size == 0
    ensures s.own[b] == Meta || (s.own[b].Data? && s.own[b].i == 1)
  {
    hide BitsOk, InodesOk;
    assert RoleOk(BIG, s, b) && Mkfs.InSize(s.own[b], s.I, 1, 11 * BSIZE);
  }

  lemma HoleStays(s: St)
    requires Sound(BIG, s, false) && 1 in s.I && s.I[1].size == 12 * BSIZE && Direct(s.I[1].(size := 11 * BSIZE), 11, BSIZE)
    ensures !Consistent(BIG, s)
  {
    hide Inv, Synced, NoLoose;
    DirectAddr(s.d, s.I[1], 11);
    assert Addr(s.d, s.I[1], 11) == 0 && 11 * BSIZE < s.I[1].size;
  }

  lemma NoGaps(s: St, own: map<nat, Owner>, n: nat, c: bool)
    requires Packed(BIG, s, END, c) && InTurn(s.own, n, END) && FIRST <= n
    requires forall b: nat :: b < n ==> b in own && b in s.own && s.own[b] == own[b]
    requires forall b: nat :: b < n ==> own[b] == Meta || (own[b].Data? && own[b].i == 1)
    ensures Gapped(s.own, n, 0) && |s.own| == END && Sound(BIG, s, c)
  {
    hide Sound;
    assert GAPS[..0] == [];
  }

  lemma GapDug(own: map<nat, Owner>, own': map<nat, Owner>, n: nat, g: nat)
    requires Gapped(own, n, g) && g < |GAPS| && (forall c :: c in own' <==> c in own && c != GAPS[g])
    requires forall c :: c in own' ==> own'[c] == own[c]
    ensures Gapped(own', n, g + 1) && |own'| <= |own|
  {
    assert GAPS[..g + 1] == GAPS[..g] + [GAPS[g]];
    SameCount(own'.Keys, own.Keys);
  }

  /** The files with the blocks in GAPS are truncated. */
  method Dig(fs: FileSys, n: nat, ghost c: bool)
    requires fs.sb == BIG && Sound(BIG, fs.S(), c) && Gapped(fs.own, n, 0) && FIRST <= n <= 8191 && 1 in fs.I
    requires (forall i: nat :: i < BIG.ninodes ==> i in fs.I) && |fs.own| <= END
    modifies fs
    ensures Sound(BIG, fs.S(), c) && 1 in fs.I && fs.I[1] == old(fs.I)[1]
    ensures Gapped(fs.own, n, |GAPS|) && |fs.own| <= END
  {
    hide Sound, Gapped;
    var g := 0;
    while g < |GAPS|
      invariant g <= |GAPS| && fs.sb == BIG && Sound(BIG, fs.S(), c) && Gapped(fs.own, n, g) && |fs.own| <= END
      invariant 1 in fs.I && fs.I[1] == old(fs.I)[1] && forall i: nat :: i < BIG.ninodes ==> i in fs.I
    {
      ghost var own1 := fs.own;
      GapHere(fs.own, n, g);
      Drop(fs, GAPS[g], GAPS[g] - n + 2, c);
      GapDug(own1, fs.own, n, g);
      g := g + 1;
    }
  }

  lemma MetaFirst(s: St, n: nat, c: bool)
    requires Packed(BIG, s, n, c)
    ensures forall b: nat :: b < FIRST ==> b in s.own && s.own[b] == Meta
  {
    hide BitsOk, InodesOk, Synced, Consistent, NoLoose;
    BigSizes();
  }

  lemma GapHere(own: map<nat, Owner>, n: nat, g: nat)
    requires Gapped(own, n, g) && g < |GAPS| && FIRST <= n <= GAPS[0]
    ensures GAPS[g] in own && own[GAPS[g]] == Data(GAPS[g] - n + 2, 0)
    ensures forall c :: c in own && OwnedBy(own[c], GAPS[g] - n + 2) ==> c == GAPS[g]
  {
  }

  lemma GapsLowest(own: map<nat, Owner>, n: nat)
    requires Gapped(own, n, |GAPS|)
    ensures Lowest(own, GAPS) && Lowest(own, GAPS + [END])
  {
    assert GAPS[..|GAPS|] == GAPS;
    assert forall c: nat :: c !in own <==> c >= END || c in GAPS;
    hide Gapped;
  }

  /** One chunk of filewrite(), from the consistent state s, that logs exactly ten blocks. */
  method TenReached() returns (fs: FileSys, ip: Inode, off: Uint, chunk: seq<Byte>, ghost s: St)
    ensures fs.sb == BIG && Consistent(BIG, s) && Consistent(BIG, fs.S()) && |chunk| == MAXCHUNK && |fs.logged| == MAXOPBLOCKS
    ensures Written(s, fs.S(), 1, off, chunk) && Exactly(BIG, s, fs.S(), 1, off, MAXCHUNK, fs.logged)
  {
    hide Consistent, Direct, Gapped, Lowest, FarApart, Exactly, Touched, Addr, Need;
    fs := Spread();
    ip := Fetch(fs, 1, true);
    off := 11 * BSIZE + 1;
    var zero: Byte := 0;
    chunk := seq(MAXCHUNK, _ => zero);
    s := fs.S();
    GapsLowest(fs.own, FIRST + 12);
    GapsFar();
    SiteHere(s, 12, 1, off, true);
    FourTouched(off);
    FiveNeeded(s, 11);
    var ok, r := WriteOp(fs, ip, off, chunk);
    assert ok;
    InvOf(fs.S());
    TenLogged(BIG, s, fs.S(), 1, off, fs.logged, GAPS);
  }

  lemma InvOf(s: St)
    requires Consistent(BIG, s)
    ensures Inv(BIG, s)
  {
  }

  lemma SiteHere(s: St, k: nat, last: nat, off: nat, c: bool)
    requires Sound(BIG, s, c) && 1 in s.I && 11 <= k <= 12 && off == 11 * BSIZE + 1
    requires Direct(s.I[1], k, last) || Direct(s.I[1].(size := 11 * BSIZE), k, last)
    ensures Site(BIG, s, 1, off) && (Addr(s.d, s.I[1], 11) != 0 <==> k == 12)
    ensures k == 12 && Direct(s.I[1], k, last) ==> s.I[1].size == 11 * BSIZE + last
    ensures !Rejected(off, MAXCHUNK, off)
  {
    hide Inv, Synced, NoLoose, Consistent;
    DirectAddr(s.d, s.I[1], 11);
  }

  /** The same write where the file has a hole, in the root directory of an image of mkfs: it logs eleven blocks. */
  method ElevenReached() returns (fs: FileSys, ip: Inode, off: Uint, chunk: seq<Byte>, ghost s: St)
    ensures fs.sb == BIG && Sound(BIG, s, false) && !Consistent(BIG, s) && Sound(BIG, fs.S(), false)
    ensures |chunk| == MAXCHUNK && |fs.logged| == MAXOPBLOCKS + 1
    ensures Written(s, fs.S(), 1, off, chunk) && Exactly(BIG, s, fs.S(), 1, off, MAXCHUNK, fs.logged)
  {
    hide Consistent, Direct, Gapped, Lowest, FarApart, Exactly, Touched, Addr, Inv, Synced, Spots, Paid, Logs, KeepsLinks, Written, NoLoose,
         Need;
    fs := HoledSpread();
    ip := Fetch(fs, 1, false);
    off := 11 * BSIZE + 1;
    var zero: Byte := 0;
    chunk := seq(MAXCHUNK, _ => zero);
    GapsLowest(fs.own, FIRST + 11);
    GapsFar();
    SiteHere(fs.S(), 11, BSIZE, off, false);
    FourTouched(off);
    fs.logged := {};
    s := fs.S();
    SyncedButOne(BIG, s, 1);
    FiveNeeded(s, 11);
    var ok, r := fs.Writei(ip, off, chunk);
    assert ok && !Rejected(off, MAXCHUNK, 12 * BSIZE);
    MadeExactly(BIG, s, fs.S(), off, fs.logged);
    ElevenLogged(BIG, s, fs.S(), 1, off, fs.logged, GAPS + [END]);
  }

  lemma FiveNeeded(s: St, lo: nat)
    requires 1 in s.I && lo + 4 <= MAXFILE
    ensures Need(s, 1, lo, lo + 4) <= 5
  {
    hide Addr;
  }

  lemma MadeExactly(sb: Sb, s: St, t: St, off: nat, l: set<nat>)
    requires 1 in s.I && 1 in t.I && off / BSIZE + Touched(off, MAXCHUNK) <= MAXFILE && KeepsLinks(s.own, t.own)
    requires l == {} + {Iblock(sb, 1)} + Logs(sb, s, t, 1, off / BSIZE, off / BSIZE + Touched(off, MAXCHUNK))
    requires Paid(sb, s, t, {}, l, 1, off / BSIZE, off / BSIZE + Touched(off, MAXCHUNK))
    requires Spots(s, t, 1, off / BSIZE, off / BSIZE + Touched(off, MAXCHUNK))
    ensures Exactly(sb, s, t, 1, off, MAXCHUNK, l)
  {
    hide Touched, KeepsLinks, Logs, Paid, Spots;
  }
}
