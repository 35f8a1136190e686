/**
  What the invariant of the file system means without its ghost owners, and what whole runs of
  operations do: every inode is a byte sequence.
*/
module FileRuns {
  import opened FsDisk
  import opened Fs
  import opened FsOps

  // ----- ownership -----

  /** The blocks reachable from an inode. */
  ghost function BlocksOf(d: Disk, x: Dinode): (s: set<nat>) {
    (set n: nat | n < MAXFILE && Addr(d, x, n) != 0 :: Addr(d, x, n))
    + (if x.addrs[NDIRECT] != 0 then {x.addrs[NDIRECT] as nat} else {})
  }

  /** The ghost owner of a block is the inode it is reachable from. */
  lemma OwnerReaches(sb: Sb, s: St, i: nat, b: nat)
    requires Inv(sb, s) && i in s.I
    ensures b in BlocksOf(s.d, s.I[i]) <==> b in s.own && OwnedBy(s.own[b], i)
  {
    hide BitsOk, Entry;
    assert InodeOk(s, i);
    var x := s.I[i];
    if b in BlocksOf(s.d, x) && b != x.addrs[NDIRECT] {
      var n: nat :| n < MAXFILE && Addr(s.d, x, n) != 0 && Addr(s.d, x, n) == b;
      assert LinkOk(s.d, s.own, x, i, n);
    }
    if b in s.own && OwnedBy(s.own[b], i) { assert RoleOk(sb, s, b); }
  }

  /**
    The bits set in the bitmap are exactly the metadata blocks and the blocks of the inodes, and
    no block has two uses.
  */
  lemma BlockOwnership(sb: Sb, s: St)
    requires Consistent(sb, s)
    ensures DiskOk(sb, s.d)
    ensures forall b: nat :: b < sb.size ==>
              (Used(sb, s.d, b) <==> b < Nmeta(sb) || exists i :: i in s.I && b in BlocksOf(s.d, s.I[i]))
    ensures forall i, b :: i in s.I && b in BlocksOf(s.d, s.I[i]) ==> Nmeta(sb) <= b < sb.size
    ensures forall i, j :: i in s.I && j in s.I && i != j ==> BlocksOf(s.d, s.I[i]) !! BlocksOf(s.d, s.I[j])
  {
    hide InodesOk, BlocksOf, Used, Synced, Covered;
    forall i, b | i in s.I && b in BlocksOf(s.d, s.I[i]) ensures Nmeta(sb) <= b < sb.size {
      OwnerReaches(sb, s, i, b);
      assert RoleOk(sb, s, b);
    }
    forall b: nat | b < sb.size
      ensures Used(sb, s.d, b) <==> b < Nmeta(sb) || exists i :: i in s.I && b in BlocksOf(s.d, s.I[i])
    {
      UsedMeans(sb, s, b);
    }
    forall i, j | i in s.I && j in s.I && i != j ensures BlocksOf(s.d, s.I[i]) !! BlocksOf(s.d, s.I[j]) {
      forall b | b in BlocksOf(s.d, s.I[i]) ensures b !in BlocksOf(s.d, s.I[j]) {
        OwnerReaches(sb, s, i, b);
        OwnerReaches(sb, s, j, b);
      }
    }
  }

  lemma UsedMeans(sb: Sb, s: St, b: nat)
    requires Inv(sb, s) && NoLoose(s.own) && b < sb.size
    ensures Used(sb, s.d, b) <==> b < Nmeta(sb) || exists i :: i in s.I && b in BlocksOf(s.d, s.I[i])
  {
    hide InodesOk, BlocksOf, Used;
    assert Used(sb, s.d, b) <==> b in s.own;
    if b in s.own {
      assert RoleOk(sb, s, b);
      if Linked(s.own[b]) { OwnerReaches(sb, s, s.own[b].i, b); }
    }
    if i :| i in s.I && b in BlocksOf(s.d, s.I[i]) { OwnerReaches(sb, s, i, b); }
  }

  /** No two blocks of a file are the same disk block, and the indirect block is none of them. */
  lemma BlocksDistinct(sb: Sb, s: St, i: nat, m: nat, n: nat)
    requires Inv(sb, s) && i in s.I && m < MAXFILE && n < MAXFILE && Addr(s.d, s.I[i], m) != 0
    ensures Addr(s.d, s.I[i], m) == Addr(s.d, s.I[i], n) ==> m == n
    ensures Addr(s.d, s.I[i], m) != s.I[i].addrs[NDIRECT]
  {
    hide BitsOk, RolesOk, Entry;
    assert InodeOk(s, i) && LinkOk(s.d, s.own, s.I[i], i, m) && LinkOk(s.d, s.own, s.I[i], i, n);
  }

  /** itrunc() frees exactly the blocks of its inode. */
  lemma TruncFrees(sb: Sb, s: St, t: St, i: nat)
    requires Inv(sb, s) && Inv(sb, t) && i in s.I && Without(s.own, t.own, i)
    ensures DiskOk(sb, s.d) && DiskOk(sb, t.d)
    ensures forall b: nat :: b < sb.size ==> (Used(sb, t.d, b) <==> Used(sb, s.d, b) && b !in BlocksOf(s.d, s.I[i]))
  {
    hide InodesOk, RolesOk, BlocksOf, Used;
    forall b: nat | b < sb.size ensures Used(sb, t.d, b) <==> Used(sb, s.d, b) && b !in BlocksOf(s.d, s.I[i]) {
      assert Used(sb, s.d, b) <==> b in s.own;
      assert Used(sb, t.d, b) <==> b in t.own;
      OwnerReaches(sb, s, i, b);
    }
  }

  // ----- runs -----

  datatype Op = Read(i: nat, off: Uint, n: Uint) | Write(i: nat, off: Uint, src: seq<Byte>) | Trunc(i: nat)

  datatype Out = Bytes(bytes: seq<Byte>) | Count(r: int) | Done

  type Files = map<nat, seq<Byte>>

  /** What an operation does to files that are plain byte sequences. */
  function Step(files: Files, op: Op): (Files, Out)
    requires op.i in files
  {
    match op
    case Read(i, off, n) => (files, Bytes(Slice(files[i], off, n)))
    case Write(i, off, src) =>
      if Rejected(off, |src|, |files[i]|) then (files, Count(-1))
      else (files[i := Overwrite(files[i], off, src)], Count(|src|))
    case Trunc(i) => (files[i := []], Done)
  }

  /** What was written is read back, other bytes and other files are as before, and a truncated file is empty. */
  lemma ReadAfterWrite(files: Files, i: nat, off: Uint, src: seq<Byte>, j: nat, o: Uint, n: Uint)
    requires i in files && j in files && |src| < 0x1_0000_0000 && off <= |files[i]| <= 268 * 1024 && off + |src| <= 268 * 1024
    ensures var (g, out) := Step(files, Write(i, off, src));
            && out == Count(|src|) && g.Keys == files.Keys
            && Step(g, Read(i, off, |src|)).1 == Bytes(src)
            && (j != i || o + n <= off ==> Step(g, Read(j, o, n)).1 == Step(files, Read(j, o, n)).1)
    ensures Step(Step(files, Trunc(i)).0, Read(i, o, n)).1 == Bytes([])
  {
    var g := Step(files, Write(i, off, src)).0;
    assert Slice(g[i], off, |src|) == src;
    if j == i && o + n <= off { assert Slice(g[i], o, n) == Slice(files[i], o, n); }
    assert Slice([], o, n) == [];
  }

  ghost predicate OpsOk(ops: seq<Op>, n: nat) {
    forall k :: 0 <= k < |ops| ==> ops[k].i < n && (ops[k].Write? ==> |ops[k].src| < 0x1_0000_0000)
  }

  /** The files and results after a run of operations. */
  ghost function Exec(files: Files, ops: seq<Op>, n: nat): (r: (Files, seq<Out>))
    requires OpsOk(ops, n) && forall i: nat :: i < n ==> i in files
    ensures r.0.Keys == files.Keys
  {
    if ops == [] then (files, [])
    else
      var (f, outs) := Exec(files, ops[..|ops| - 1], n);
      var (g, out) := Step(f, ops[|ops| - 1]);
      (g, outs + [out])
  }

  ghost function FilesOf(s: St): (f: Files)
    ensures f.Keys == s.I.Keys
  {
    map i | i in s.I :: File(s, i)
  }

  // ----- what operations log and take -----

  /** The bitmap blocks of all blocks of inode i. */
  ghost function MapsOf(sb: Sb, own: map<nat, Owner>, i: nat): set<nat> {
    set b | b in own && OwnedBy(own[b], i) :: Bblock(sb, b)
  }

  ghost predicate WriteRuns(sb: Sb, s: St, l: set<nat>, i: nat, off: nat, src: seq<Byte>, t: St, l': set<nat>) {
    && i in s.I && i in t.I && off / BSIZE + Touched(off, |src|) <= MAXFILE
    && var lo, hi := off / BSIZE, off / BSIZE + Touched(off, |src|);
       && Written(s, t, i, off, src) && KeepsLinks(s.own, t.own)
       && l' == l + {Iblock(sb, i)} + Logs(sb, s, t, i, lo, hi)
       && Paid(sb, s, t, l, l', i, lo, hi) && Spots(s, t, i, lo, hi)
  }

  ghost predicate TruncRuns(sb: Sb, s: St, l: set<nat>, i: nat, t: St, l': set<nat>) {
    && i in s.I && t.I == s.I[i := s.I[i].(addrs := NoAddrs(), size := 0)] && t.F == s.F[i := Fs.Blank()]
    && Without(s.own, t.own, i) && l' == l + {Iblock(sb, i)} + MapsOf(sb, s.own, i) && Framed(sb, s.d, t.d, l, l')
  }

  /**
    An operation takes the file system from s to t, and the logged blocks from l to l': a read and
    a write that is rejected log nothing; a write logs the inode block and what its blocks need,
    taking the lowest free ones; a truncation logs the inode block and the bitmap blocks of what
    it frees. Nothing outside the logged blocks changes.
  */
  ghost predicate OpRuns(sb: Sb, s: St, l: set<nat>, op: Op, t: St, l': set<nat>) {
    && Consistent(sb, t) && op.i in s.I
    && match op
       case Read(_, _, _) => t == s && l' == l
       case Write(i, off, src) =>
         if Rejected(off, |src|, s.I[i].size) then t == s && l' == l else WriteRuns(sb, s, l, i, off, src, t, l')
       case Trunc(i) => TruncRuns(sb, s, l, i, t, l')
  }

  /** There are as many free blocks as the operation takes. */
  ghost predicate Affordable(sb: Sb, s: St, op: Op) {
    && op.i in s.I
    && (op.Write? && !Rejected(op.off, |op.src|, s.I[op.i].size) ==>
          var lo, hi := op.off / BSIZE, op.off / BSIZE + Touched(op.off, |op.src|);
          hi <= MAXFILE && |s.own| + Need(s, op.i, lo, hi) <= sb.size)
  }

  /** The operations took the file system through the states ss, and ls are the blocks logged before each and at the end. */
  ghost predicate Runs(sb: Sb, ops: seq<Op>, ss: seq<St>, ls: seq<set<nat>>) {
    && |ss| == |ls| == |ops| + 1
    && forall k :: 0 <= k < |ops| ==> OpRuns(sb, ss[k], ls[k], ops[k], ss[k + 1], ls[k + 1])
  }

  lemma RunsNext(sb: Sb, ops: seq<Op>, k: nat, ss: seq<St>, ls: seq<set<nat>>, t: St, l: set<nat>)
    requires k < |ops| && Runs(sb, ops[..k], ss, ls) && OpRuns(sb, ss[k], ls[k], ops[k], t, l)
    ensures Runs(sb, ops[..k + 1], ss + [t], ls + [l])
  {
    hide OpRuns;
    forall j | 0 <= j < k + 1
      ensures OpRuns(sb, (ss + [t])[j], (ls + [l])[j], ops[..k + 1][j], (ss + [t])[j + 1], (ls + [l])[j + 1])
    {
      if j < k { assert OpRuns(sb, ss[j], ls[j], ops[..k][j], ss[j + 1], ls[j + 1]); }
    }
  }

  lemma AllMaps(sb: Sb, own: map<nat, Owner>, i: nat)
    requires forall b :: b in own && OwnedBy(own[b], i) ==> Rank(own[b]) <= MAXFILE
    ensures Maps(sb, own, i, MAXFILE + 1) == MapsOf(sb, own, i)
  {
    hide Bblock;
  }

  /** Every inode is in memory as it is on disk. */
  ghost predicate Loaded(ips: seq<Inode>, I: map<nat, Dinode>)
    reads ips
  {
    && (forall i: nat :: i in I <==> i < |ips|)
    && (forall i: nat :: i < |ips| ==> ips[i].inum == i && ips[i].f == I[i])
  }

  /** One operation. */
  method RunOp(fs: FileSys, ips: seq<Inode>, op: Op) returns (ok: bool, out: Out)
    requires Consistent(fs.sb, fs.S()) && Loaded(ips, fs.I) && op.i < |ips|
    requires op.Write? ==> |op.src| < 0x1_0000_0000
    modifies fs, ips
    ensures ok ==> Consistent(fs.sb, fs.S()) && Loaded(ips, fs.I)
    ensures ok ==> (FilesOf(fs.S()), out) == Step(old(FilesOf(fs.S())), op)
    ensures ok ==> Framed(fs.sb, old(fs.d), fs.d, old(fs.logged), fs.logged)
    ensures ok ==> OpRuns(fs.sb, old(fs.S()), old(fs.logged), op, fs.S(), fs.logged)
    ensures ok <==> Affordable(fs.sb, old(fs.S()), op)
  {
    hide Inv, Synced, NoLoose, Covered, Iblock, Addr, Grows, File, Framed, Maps, MapsOf, Fs.Blank, NoAddrs, Without, OpRuns, Affordable,
         Consistent;
    ghost var s0 := fs.S();
    FramedNone(fs.sb, fs.d, fs.logged);
    var ip := ips[op.i];
    SyncedBut(fs.sb, s0, op.i);
    match op
    case Read(i, off, n) =>
      var r;
      ok, r := fs.Readi(ip, off, n);
      QuietOp(fs.sb, s0, fs.logged, op);
      out := Bytes(r);
    case Write(i, off, src) =>
      ok, out := RunWrite(fs, ip, op);
    case Trunc(i) =>
      fs.Itrunc(ip);
      AllMaps(fs.sb, s0.own, i);
      TruncRun(fs.sb, s0, fs.S(), i);
      TruncOpRuns(fs.sb, s0, old(fs.logged), op, fs.S(), fs.logged);
      ok, out := true, Done;
  }

  method RunWrite(fs: FileSys, ip: Inode, op: Op) returns (ok: bool, out: Out)
    requires Consistent(fs.sb, fs.S()) && op.Write? && op.i == ip.inum && |op.src| < 0x1_0000_0000
    requires ip.inum in fs.I && fs.I[ip.inum] == ip.f
    modifies fs, ip
    ensures ok ==> Consistent(fs.sb, fs.S()) && fs.I == old(fs.I)[ip.inum := ip.f]
    ensures ok ==> (FilesOf(fs.S()), out) == Step(old(FilesOf(fs.S())), op)
    ensures ok ==> Framed(fs.sb, old(fs.d), fs.d, old(fs.logged), fs.logged)
    ensures ok ==> OpRuns(fs.sb, old(fs.S()), old(fs.logged), op, fs.S(), fs.logged)
    ensures ok <==> Affordable(fs.sb, old(fs.S()), op)
  {
    hide Inv, Synced, NoLoose, KeepsLinks, Covered, Full, Logs, Touched, Iblock, Addr, File, Written, Spots, Framed,
         NewCount, KeepsIndirect, Need, OpRuns, Affordable, FilesOf;
    ghost var s0, i := fs.S(), ip.inum;
    FramedNone(fs.sb, fs.d, fs.logged);
    SyncedBut(fs.sb, s0, i);
    var r;
    ok, r := fs.Writei(ip, op.off, op.src);
    out := Count(r);
    if Rejected(op.off, |op.src|, s0.I[i].size) {
      QuietOp(fs.sb, s0, fs.logged, op);
    } else {
      WriteAffordable(fs.sb, s0, op);
      if ok {
        WriteRun(fs.sb, s0, fs.S(), i, op.off, op.src);
        WriteOpRuns(fs.sb, s0, old(fs.logged), op, fs.S(), fs.logged);
      }
    }
  }

  lemma QuietOp(sb: Sb, s: St, l: set<nat>, op: Op)
    requires Consistent(sb, s) && op.i in s.I && (op.Read? || (op.Write? && Rejected(op.off, |op.src|, s.I[op.i].size)))
    ensures OpRuns(sb, s, l, op, s, l) && Affordable(sb, s, op)
  {
    hide Consistent;
  }

  lemma WriteAffordable(sb: Sb, s: St, op: Op)
    requires op.Write? && op.i in s.I && !Rejected(op.off, |op.src|, s.I[op.i].size)
    requires op.off / BSIZE + Touched(op.off, |op.src|) <= MAXFILE
    ensures Affordable(sb, s, op) <==>
              |s.own| + Need(s, op.i, op.off / BSIZE, op.off / BSIZE + Touched(op.off, |op.src|)) <= sb.size
  {
    hide Need, Touched;
  }

  lemma WriteOpRuns(sb: Sb, s: St, l: set<nat>, op: Op, t: St, l': set<nat>)
    requires op.Write? && op.i in s.I && !Rejected(op.off, |op.src|, s.I[op.i].size)
    requires Consistent(sb, t) && WriteRuns(sb, s, l, op.i, op.off, op.src, t, l')
    ensures OpRuns(sb, s, l, op, t, l')
  {
    hide Consistent, WriteRuns;
  }

  lemma TruncOpRuns(sb: Sb, s: St, l: set<nat>, op: Op, t: St, l': set<nat>)
    requires op.Trunc? && op.i in s.I && Consistent(sb, t) && TruncRuns(sb, s, l, op.i, t, l')
    ensures OpRuns(sb, s, l, op, t, l') && Affordable(sb, s, op)
  {
    hide Consistent, TruncRuns;
  }

  lemma SyncedBut(sb: Sb, s: St, i: nat)
    requires Consistent(sb, s) && i in s.I
    ensures Inv(sb, s) && Synced(sb, s, {i}) && Covered(s.d, s.I[i], s.I[i].size)
    ensures |File(s, i)| == s.I[i].size && i in FilesOf(s) && FilesOf(s)[i] == File(s, i)
  {
    hide Inv, Ino, NoLoose, Covered;
    FileIs(sb, s, i);
  }

  lemma WriteRun(sb: Sb, s: St, t: St, i: nat, off: nat, src: seq<Byte>)
    requires Consistent(sb, s) && Inv(sb, t) && Synced(sb, t, {}) && NoLoose(t.own) && KeepsLinks(s.own, t.own)
    requires Written(s, t, i, off, src) && Covered(t.d, t.I[i], t.I[i].size)
    ensures Consistent(sb, t) && t.I == s.I[i := t.I[i]]
    ensures i in FilesOf(s) && off <= |FilesOf(s)[i]|
    ensures FilesOf(t) == FilesOf(s)[i := Overwrite(FilesOf(s)[i], off, src)]
  {
    hide Inv, Synced, NoLoose, KeepsLinks, Covered, Consistent, File;
    assert t.I == s.I[i := t.I[i]];
    WriteConsistent(sb, s, t, i);
  }

  lemma TruncRun(sb: Sb, s: St, t: St, i: nat)
    requires Consistent(sb, s) && Inv(sb, t) && Synced(sb, t, {}) && Without(s.own, t.own, i)
    requires i in s.I && i in t.I && t.I == s.I[i := t.I[i]] && t.I[i].size == 0 && t.F == s.F[i := Fs.Blank()]
    ensures Consistent(sb, t) && FilesOf(t) == FilesOf(s)[i := []]
  {
    hide Inv, Synced, Without, Covered, Consistent, Fs.Blank;
    TruncConsistent(sb, s, t, i);
    forall j | j in t.I && j != i ensures File(t, j) == File(s, j) {}
    assert File(t, i) == [];
  }

  lemma LoadedFiles(ips: seq<Inode>, s: St)
    requires Loaded(ips, s.I)
    ensures forall i: nat :: i < |ips| ==> i in s.I && i in FilesOf(s)
  {
  }

  lemma ExecNone(f: Files, ops: seq<Op>, n: nat)
    requires forall i: nat :: i < n ==> i in f
    ensures OpsOk(ops[..0], n) && Exec(f, ops[..0], n) == (f, [])
  {
  }

  lemma ExecNext(f: Files, ops: seq<Op>, k: nat, n: nat)
    requires OpsOk(ops, n) && k < |ops| && forall i: nat :: i < n ==> i in f
    ensures ops[k].i < n && (ops[k].Write? ==> |ops[k].src| < 0x1_0000_0000)
    ensures OpsOk(ops[..k], n) && OpsOk(ops[..k + 1], n) && ops[k].i in Exec(f, ops[..k], n).0
    ensures var (g, outs) := Exec(f, ops[..k], n);
            var (h, out) := Step(g, ops[k]);
            Exec(f, ops[..k + 1], n) == (h, outs + [out])
  {
    hide Step;
    assert ops[..k + 1][..k] == ops[..k];
  }

  /** Every run of reads, writes and truncations behaves as on plain byte sequences. */
  method RunOps(fs: FileSys, ips: seq<Inode>, ops: seq<Op>)
    returns (ok: bool, outs: seq<Out>, ghost ss: seq<St>, ghost ls: seq<set<nat>>)
    requires Consistent(fs.sb, fs.S()) && Loaded(ips, fs.I) && OpsOk(ops, |ips|)
    modifies fs, ips
    ensures ok ==> Consistent(fs.sb, fs.S()) && Loaded(ips, fs.I)
    ensures ok ==> (FilesOf(fs.S()), outs) == Exec(old(FilesOf(fs.S())), ops, |ips|)
    ensures ok ==> Framed(fs.sb, old(fs.d), fs.d, old(fs.logged), fs.logged)
    ensures 0 < |ss| <= |ops| + 1 && Runs(fs.sb, ops[..|ss| - 1], ss, ls) && ss[0] == old(fs.S()) && ls[0] == old(fs.logged)
    ensures ok ==> |ss| == |ops| + 1 && ss[|ops|] == fs.S() && ls[|ops|] == fs.logged
    ensures !ok ==> |ss| <= |ops| && !Affordable(fs.sb, ss[|ss| - 1], ops[|ss| - 1])
  {
    hide Consistent, FilesOf, Exec, Step, OpsOk, Framed, Loaded, OpRuns, Affordable;
    ghost var f0 := FilesOf(fs.S());
    FramedNone(fs.sb, fs.d, fs.logged);
    LoadedFiles(ips, fs.S());
    ExecNone(f0, ops, |ips|);
    outs, ss, ls := [], [fs.S()], [fs.logged];
    var k := 0;
    while k < |ops|
      invariant k <= |ops| && Consistent(fs.sb, fs.S()) && Loaded(ips, fs.I) && OpsOk(ops[..k], |ips|)
      invariant (FilesOf(fs.S()), outs) == Exec(f0, ops[..k], |ips|)
      invariant Framed(fs.sb, old(fs.d), fs.d, old(fs.logged), fs.logged)
      invariant Runs(fs.sb, ops[..k], ss, ls) && ss[0] == old(fs.S()) && ls[0] == old(fs.logged)
      invariant ss[k] == fs.S() && ls[k] == fs.logged
    {
      var out;
      ghost var d1, l1 := fs.d, fs.logged;
      ExecNext(f0, ops, k, |ips|);
      LoadedFiles(ips, fs.S());
      ok, out := RunOp(fs, ips, ops[k]);
      if !ok { return; }
      FramedMore(fs.sb, old(fs.d), d1, fs.d, old(fs.logged), l1, fs.logged);
      RunsNext(fs.sb, ops, k, ss, ls, fs.S(), fs.logged);
      ss, ls := ss + [fs.S()], ls + [fs.logged];
      outs := outs + [out];
      k := k + 1;
    }
    assert ops[..k] == ops;
    ok := true;
  }
}
