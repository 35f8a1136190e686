/**
  Crash safety of the file system from end to end: file operations (kernel/fs.c) grouped into
  transactions and committed through the log (kernel/log.c), with crashes anywhere in the commits
  and in recovery.
*/
module CrashSafe {
  import opened FsDisk
  import opened Fs
  import opened FsOps
  import opened FileRuns
  import W = FileWrite
  import opened Param
  import L = CrashLog
  import Mkfs

  /** The log lies between the super block and the inodes. */
  function LogOf(sb: Sb): L.Layout
    requires SbOk(sb)
  {
    L.Layout(2, sb.inodestart - 2)
  }

  // ----- the log blocks are no part of the file system -----

  ghost predicate SameFiles(sb: Sb, d: Disk, e: Disk) {
    |e| == |d| && forall b: nat :: sb.inodestart <= b < sb.size && b < |d| ==> e[b] == d[b]
  }

  lemma SameAddresses(sb: Sb, s: St, e: Disk, i: nat)
    requires Inv(sb, s) && SameFiles(sb, s.d, e) && i in s.I
    ensures forall n: nat :: n < MAXFILE ==> Addr(e, s.I[i], n) == Addr(s.d, s.I[i], n)
  {
    hide BitsOk, Entry;
    assert InodeOk(s, i);
    assert s.I[i].addrs[NDIRECT] != 0 ==> RoleOk(sb, s, s.I[i].addrs[NDIRECT]);
  }

  lemma SameInode(sb: Sb, s: St, e: Disk, i: nat)
    requires Inv(sb, s) && SameFiles(sb, s.d, e) && i in s.I
    ensures InodeOk(s.(d := e), i)
  {
    hide BitsOk, Addr;
    SameAddresses(sb, s, e, i);
    assert InodeOk(s, i);
    forall n: nat | n < MAXFILE ensures LinkOk(e, s.own, s.I[i], i, n) { assert LinkOk(s.d, s.own, s.I[i], i, n); }
    forall k: nat | k < MAXBYTES ensures ByteAt(e, s.I[i], k) == s.F[i][k] {
      assert ByteAt(s.d, s.I[i], k) == s.F[i][k];
      assert LinkOk(s.d, s.own, s.I[i], i, k / BSIZE);
      var a := Addr(s.d, s.I[i], k / BSIZE);
      assert a != 0 ==> RoleOk(sb, s, a);
    }
  }

  lemma SameInv(sb: Sb, s: St, e: Disk)
    requires Inv(sb, s) && SameFiles(sb, s.d, e)
    ensures Inv(sb, s.(d := e))
  {
    hide MapBit, Addr, InodeOk;
    var t := s.(d := e);
    forall i | i in t.I ensures InodeOk(t, i) { SameInode(sb, s, e, i); }
    forall b | b in t.own ensures RoleOk(sb, t, b) {
      assert RoleOk(sb, s, b);
      if s.own[b].Data? { SameAddresses(sb, s, e, s.own[b].i); }
    }
    forall b: nat | b < sb.size ensures Used(sb, e, b) == Used(sb, s.d, b) {
      assert sb.bmapstart <= Bblock(sb, b) < Nmeta(sb);
    }
  }

  /** Whatever the log blocks hold, the file system is as consistent and its files are the same. */
  lemma LogIrrelevant(sb: Sb, s: St, e: Disk)
    requires Consistent(sb, s) && SameFiles(sb, s.d, e)
    ensures Consistent(sb, s.(d := e)) && FilesOf(s.(d := e)) == FilesOf(s)
  {
    hide Inv, Addr;
    var t := s.(d := e);
    SameInv(sb, s, e);
    SameSynced(sb, s, e);
    forall i | i in t.I ensures Covered(e, t.I[i], t.I[i].size) && File(t, i) == File(s, i) {
      SameAddresses(sb, s, e, i);
      assert Covered(s.d, s.I[i], s.I[i].size);
    }
  }

  lemma SameSynced(sb: Sb, s: St, e: Disk)
    requires Inv(sb, s) && SameFiles(sb, s.d, e) && Synced(sb, s, {})
    ensures Synced(sb, s.(d := e), {})
  {
    hide BitsOk, RolesOk, InodesOk, InodeOf;
    forall i: nat | i < sb.ninodes ensures Ino(sb, e, i) == Ino(sb, s.d, i) {
      assert sb.inodestart <= Iblock(sb, i) < sb.bmapstart;
    }
  }

  /** Two disks that agree off the log hold the same files. */
  lemma OffLog(sb: Sb, d: Disk, e: Disk)
    requires SbOk(sb) && |d| == sb.size && L.AgreeOffLog(LogOf(sb), e, d)
    ensures SameFiles(sb, d, e)
  {
    forall b: nat | sb.inodestart <= b < sb.size ensures e[b] == d[b] { assert !L.InLog(LogOf(sb), b); }
  }

  // ----- transactions -----

  /**
    What becomes of a transaction: its commit completes, or the machine stops after k block writes
    of the commit, and recovery is itself stopped at the points ks before it completes. A machine
    that stops before the commit is the case k == 0.
  */
  datatype Fate = Completes | Stops(k: nat, ks: seq<nat>)

  datatype Tx = Tx(ops: seq<Op>, fate: Fate)

  /**
    A run can stop: an operation needs more blocks than are free, a transaction logs more blocks
    than the log holds, the image is too small for its files, or mkfs leaves a hole in it.
  */
  datatype Outcome = Fine | NoBlocks | TooBig(n: nat) | ImageFull | Holed

  /** The log header is empty and there is room for a log. */
  predicate EmptyLog(sb: Sb, d: Disk) { DiskOk(sb, d) && sb.inodestart >= 3 && L.Num(d[2]) == 0 }

  ghost predicate Listing(s: set<nat>, bs: seq<nat>) {
    && |bs| == |s| && (forall b :: b in bs <==> b in s)
    && (forall i, j :: 0 <= i < j < |bs| ==> bs[i] != bs[j])
  }

  method List(s: set<nat>) returns (bs: seq<nat>)
    ensures Listing(s, bs)
  {
    bs := [];
    var rest := s;
    while rest != {}
      invariant rest <= s && |bs| + |rest| == |s| && (forall b :: b in bs <==> b in s - rest)
      invariant forall i, j :: 0 <= i < j < |bs| ==> bs[i] != bs[j]
    {
      var b :| b in rest;
      rest := rest - {b};
      bs := bs + [b];
    }
  }

  predicate Fits(sb: Sb, n: nat) { n <= LOGSIZE && n <= sb.inodestart - 3 }

  /** Logging the changed blocks with their new contents asks the log for exactly the new disk. */
  lemma LoggedIs(sb: Sb, disk: Disk, d: Disk, l: set<nat>, bs: seq<nat>)
    requires EmptyLog(sb, disk) && Framed(sb, disk, d, {}, l) && Listing(l, bs) && Fits(sb, |l|)
    ensures L.LayoutOk(LogOf(sb), disk) && L.TxOk(LogOf(sb), disk, bs)
    ensures L.NewState(disk, bs, L.Values(d, bs)) == d
  {
    var lay := LogOf(sb);
    forall i | 0 <= i < |bs| ensures bs[i] < |disk| && !L.InLog(lay, bs[i]) { assert bs[i] in bs; }
    var vs := L.Values(d, bs);
    L.NewStateAt(lay, disk, bs, vs);
    var e := L.NewState(disk, bs, vs);
    forall b: nat | b < |d| ensures e[b] == d[b] {
      if b in bs { var i :| 0 <= i < |bs| && bs[i] == b; }
    }
    assert |e| == |d|;
  }

  /** Restart after a crash: recovery, stopped at the points ks and finally completed. */
  method Reboot(l: L.Layout, d: Disk, ks: seq<nat>, ghost r: Disk) returns (e: Disk)
    requires L.RecoversTo(l, d, ks, r)
    ensures e == r
    decreases |ks|
  {
    if ks == [] {
      e := L.Recover(l, d);
    } else {
      e := Reboot(l, L.CrashedRecovery(l, d, ks[0]), ks[1..], r);
    }
  }

  /** Read all inodes from the disk. */
  method Load(fs: FileSys) returns (ips: seq<Inode>)
    requires Consistent(fs.sb, fs.S())
    ensures Loaded(ips, fs.I) && |ips| == fs.sb.ninodes && fresh(set ip | ip in ips)
  {
    hide Covered, InodesOk, RolesOk, BitsOk, NoLoose, InodeOf;
    ips := [];
    var i := 0;
    while i < fs.sb.ninodes
      invariant i == |ips| <= fs.sb.ninodes && fresh(set ip | ip in ips)
      invariant forall j: nat :: j < i ==> ips[j].inum == j && j in fs.I && ips[j].f == fs.I[j]
    {
      var ip := new Inode(i, Ino(fs.sb, fs.d, i));
      ips := ips + [ip];
      i := i + 1;
    }
  }

  /** r is what the block writes of the commit leave, up to the point where the machine stopped, and recovery after it. */
  ghost predicate Ended(sb: Sb, disk: Disk, d: Disk, bs: seq<nat>, fate: Fate, r: Disk)
    requires EmptyLog(sb, disk) && L.LayoutOk(LogOf(sb), disk) && L.TxOk(LogOf(sb), disk, bs) && |d| == |disk|
  {
    var cw := L.CommitWrites(LogOf(sb), disk, bs, L.Values(d, bs));
    match fate
    case Completes => r == L.Apply(disk, cw)
    case Stops(k, ks) => L.RecoversTo(LogOf(sb), L.After(disk, cw, if k < |cw| then k else |cw|), ks, r)
  }

  /** commit() of the logged blocks bs with contents from d, and what the machine does after it. */
  method Finish(sb: Sb, disk: Disk, d: Disk, bs: seq<nat>, fate: Fate) returns (r: Disk)
    requires EmptyLog(sb, disk) && L.LayoutOk(LogOf(sb), disk) && L.TxOk(LogOf(sb), disk, bs) && |d| == |disk|
    requires L.NewState(disk, bs, L.Values(d, bs)) == d
    ensures L.Clean(LogOf(sb), r, if fate.Completes? || fate.k > |bs| then d else disk)
    ensures Ended(sb, disk, d, bs, fate, r)
  {
    hide L.CommitWrites, L.Clean, L.RecoversTo, L.LayoutOk, L.NewState;
    var l, vs := LogOf(sb), L.Values(d, bs);
    var cw := L.CommitWrites(l, disk, bs, vs);
    match fate
    case Completes =>
      L.CompleteCommit(l, disk, bs, vs);
      r := L.Apply(disk, cw);
    case Stops(k, ks) =>
      CommitLength(l, disk, bs, vs);
      var m := if k < |cw| then k else |cw|;
      ghost var e := L.CrashAtomicity(l, disk, bs, vs, m, ks);
      r := Reboot(l, L.After(disk, cw, m), ks, e);
      NothingLogged(disk, bs, vs);
  }

  lemma CommitLength(l: L.Layout, d: Disk, bs: seq<nat>, vs: seq<Block>)
    requires L.LayoutOk(l, d) && L.TxOk(l, d, bs) && |bs| == |vs|
    ensures |L.CommitWrites(l, d, bs, vs)| == if bs == [] then 0 else 2 * |bs| + 2
  {
  }

  lemma NothingLogged(d: Disk, bs: seq<nat>, vs: seq<Block>)
    requires |bs| == |vs|
    ensures bs == [] ==> L.NewState(d, bs, vs) == d
  {
  }

  /**
    The record of a transaction: the state s before it, the states ss after its operations and the
    blocks ls they had logged, the order bs in which the log holds these, and the state t after it.
  */
  datatype Rec = Rec(s: St, ss: seq<St>, ls: seq<set<nat>>, bs: seq<nat>, t: St)

  /** The operations of the transaction, as far as they got. */
  ghost predicate Ran(sb: Sb, tx: Tx, r: Rec) {
    && 0 < |r.ss| <= |tx.ops| + 1 && r.ss[0] == r.s && |r.ls| == |r.ss| && r.ls[0] == {}
    && Runs(sb, tx.ops[..|r.ss| - 1], r.ss, r.ls)
  }

  /** A transaction is kept exactly if its commit completed or the header write reached the disk. */
  predicate Kept(fate: Fate, n: nat) { fate.Completes? || fate.k > n }

  /** The transaction ended: it fits, and its commit or the recovery after it left the disk of t. */
  ghost predicate TxDone(sb: Sb, tx: Tx, r: Rec) {
    && Ran(sb, tx, r) && |r.ss| == |tx.ops| + 1 && EmptyLog(sb, r.s.d)
    && var u, l := r.ss[|tx.ops|], r.ls[|tx.ops|];
       && |l| <= LOGSIZE && |l| <= sb.inodestart - 3 && Listing(l, r.bs)
       && L.LayoutOk(LogOf(sb), r.s.d) && L.TxOk(LogOf(sb), r.s.d, r.bs) && |u.d| == |r.s.d|
       && Ended(sb, r.s.d, u.d, r.bs, tx.fate, r.t.d)
       && r.t == (if Kept(tx.fate, |r.bs|) then u else r.s).(d := r.t.d)
  }

  /** The transaction stopped: its next operation does not have the blocks it needs, or its log is too long. */
  ghost predicate TxStopped(sb: Sb, tx: Tx, r: Rec, o: Outcome) {
    && Ran(sb, tx, r)
    && match o
       case Fine => false
       case NoBlocks => |r.ss| <= |tx.ops| && !Affordable(sb, r.ss[|r.ss| - 1], tx.ops[|r.ss| - 1])
       case TooBig(n) => |r.ss| == |tx.ops| + 1 && n == |r.ls[|tx.ops|]| && (n > LOGSIZE || n > sb.inodestart - 3)
       case ImageFull => false
       case Holed => false
  }

  /**
    A transaction from its first operation to the end of its commit, or to the end of recovery. The
    file system on the disk is consistent again, and its files are those after all operations of
    the transaction or those before; the former exactly if the commit completed or the header
    write, which follows one block write for each logged block, reached the disk.
  */
  method Transact(sb: Sb, disk: Disk, tx: Tx, ghost s: St) returns (o: Outcome, disk': Disk, ghost r: Rec)
    requires Consistent(sb, s) && s.d == disk && EmptyLog(sb, disk) && OpsOk(tx.ops, sb.ninodes)
    ensures Shape(sb, s) && (forall i: nat :: i < sb.ninodes ==> i in FilesOf(s)) && r.s == s
    ensures o == Fine ==> TxDone(sb, tx, r) && Consistent(sb, r.t) && r.t.d == disk' && EmptyLog(sb, disk')
    ensures o == Fine ==>
              FilesOf(r.t) == if Kept(tx.fate, |r.bs|) then Exec(FilesOf(s), tx.ops, sb.ninodes).0 else FilesOf(s)
    ensures o != Fine ==> TxStopped(sb, tx, r, o) && disk' == disk
  {
    hide Consistent, FilesOf, Exec, OpsOk, Framed, Listing, Ended, OpRuns, Affordable, EmptyLog, L.LayoutOk, L.TxOk, L.NewState, L.Values;
    ShapeOf(sb, s);
    var fs := new FileSys(sb, disk, s.own, s.I, s.F);
    var ips := Load(fs);
    var ok, _, ss, ls := RunOps(fs, ips, tx.ops);
    r := Rec(s, ss, ls, [], s);
    if !ok { return NoBlocks, disk, r; }
    assert tx.ops[..|tx.ops|] == tx.ops;
    if !Fits(sb, |fs.logged|) { return TooBig(|fs.logged|), disk, r; }
    var bs := List(fs.logged);
    SameSize(sb, disk, fs.d, fs.logged, bs);
    LoggedIs(sb, disk, fs.d, fs.logged, bs);
    disk' := Finish(sb, disk, fs.d, bs, tx.fate);
    ghost var t := if Kept(tx.fate, |bs|) then fs.S() else s;
    CleanFiles(sb, t, disk');
    r := Rec(s, ss, ls, bs, t.(d := disk'));
    o := Fine;
  }

  // ----- transactions that always fit -----

  /** The operations begin_op() reserves MAXOPBLOCKS blocks for: filewrite() writes no more than a chunk at a time. */
  predicate SmallOp(sb: Sb, op: Op) {
    match op
    case Read(_, _, _) => true
    case Write(_, _, src) => |src| <= W.MAXCHUNK
    case Trunc(_) => sb.size / BPB + 2 <= MAXOPBLOCKS
  }

  lemma {:induction false} RangeSize(lo: nat, hi: nat, l: set<nat>)
    requires lo <= hi && forall b :: b in l ==> lo <= b < hi
    ensures |l| <= hi - lo
  {
    if lo < hi {
      RangeSize(lo, hi - 1, l - {hi - 1});
    } else {
      assert l == {};
    }
  }

  lemma SmallWrite(sb: Sb, s: St, l: set<nat>, op: Op, t: St, l': set<nat>)
    requires Consistent(sb, s) && op.Write? && SmallOp(sb, op) && op.i in s.I && op.off <= s.I[op.i].size
    requires WriteRuns(sb, s, l, op.i, op.off, op.src, t, l')
    ensures |l'| <= |l| + MAXOPBLOCKS
  {
    hide Inv, Synced, NoLoose, Covered, Logs, Paid, Spots, Written, KeepsLinks, Iblock, Touched;
    var off, n := op.off, |op.src|;
    var lo, hi, ib := off / BSIZE, off / BSIZE + Touched(off, n), Iblock(sb, op.i);
    var m := {} + {ib} + Logs(sb, s, t, op.i, lo, hi);
    W.SyncedButOne(sb, s, op.i);
    if n == 0 {
      NothingWritten(sb, s, t, op.i, off);
    } else {
      if off % BSIZE != 0 { W.UnalignedMapped(s.d, s.I[op.i], off); }
      W.OpFits(sb, s, t, op.i, off, n, m, ib);
    }
    assert l' == l + m;
  }

  lemma NothingWritten(sb: Sb, s: St, t: St, i: nat, off: nat)
    requires i in s.I && i in t.I && off / BSIZE <= MAXFILE
    ensures Touched(off, 0) == 0 && Logs(sb, s, t, i, off / BSIZE, off / BSIZE) == {}
  {
  }

  lemma SmallTrunc(sb: Sb, s: St, l: set<nat>, op: Op, t: St, l': set<nat>)
    requires Consistent(sb, s) && op.Trunc? && SmallOp(sb, op) && TruncRuns(sb, s, l, op.i, t, l')
    ensures |l'| <= |l| + MAXOPBLOCKS
  {
    hide BitsOk, InodesOk, Synced, NoLoose, Covered, Iblock, Without, Framed;
    var m := MapsOf(sb, s.own, op.i);
    forall c | c in m ensures sb.bmapstart <= c < Nmeta(sb) {
      var b :| b in s.own && OwnedBy(s.own[b], op.i) && Bblock(sb, b) == c;
      assert RoleOk(sb, s, b);
    }
    RangeSize(sb.bmapstart, Nmeta(sb), m);
    assert l' == l + ({Iblock(sb, op.i)} + m);
  }

  /** A small operation logs at most MAXOPBLOCKS blocks more. */
  lemma SmallStep(sb: Sb, s: St, l: set<nat>, op: Op, t: St, l': set<nat>)
    requires Consistent(sb, s) && SmallOp(sb, op) && OpRuns(sb, s, l, op, t, l')
    ensures |l'| <= |l| + MAXOPBLOCKS && Consistent(sb, t)
  {
    hide Consistent, WriteRuns, TruncRuns;
    match op
    case Read(_, _, _) =>
    case Write(i, off, src) => if !Rejected(off, |src|, s.I[i].size) { SmallWrite(sb, s, l, op, t, l'); }
    case Trunc(_) => SmallTrunc(sb, s, l, op, t, l');
  }

  lemma {:induction false} SmallRun(sb: Sb, ops: seq<Op>, ss: seq<St>, ls: seq<set<nat>>, k: nat)
    requires Runs(sb, ops, ss, ls) && k <= |ops| && Consistent(sb, ss[0]) && ls[0] == {}
    requires forall j :: 0 <= j < |ops| ==> SmallOp(sb, ops[j])
    ensures |ls[k]| <= k * MAXOPBLOCKS && Consistent(sb, ss[k])
  {
    hide Consistent, SmallOp, OpRuns;
    if k > 0 {
      SmallRun(sb, ops, ss, ls, k - 1);
      SmallStep(sb, ss[k - 1], ls[k - 1], ops[k - 1], ss[k], ls[k]);
    }
  }

  /**
    As many small operations as the log has room for budgets never make a transaction too big. In the
    log of mkfs, whose 29 slots hold two budgets, these are two chunks of filewrite() or truncations.
  */
  lemma NeverTooBig(sb: Sb, tx: Tx, r: Rec, n: nat)
    requires Consistent(sb, r.s) && |tx.ops| * MAXOPBLOCKS <= LOGSIZE && |tx.ops| * MAXOPBLOCKS <= sb.inodestart - 3
    requires forall j :: 0 <= j < |tx.ops| ==> SmallOp(sb, tx.ops[j])
    ensures !TxStopped(sb, tx, r, TooBig(n))
  {
    hide Consistent, SmallOp, OpRuns;
    if TxStopped(sb, tx, r, TooBig(n)) {
      assert tx.ops[..|tx.ops|] == tx.ops;
      SmallRun(sb, tx.ops, r.ss, r.ls, |tx.ops|);
      assert false;
    }
  }

  lemma ShapeOf(sb: Sb, s: St)
    requires Consistent(sb, s)
    ensures Shape(sb, s) && DiskOk(sb, s.d) && (forall i: nat :: i < sb.ninodes ==> i in FilesOf(s))
    ensures s == St(s.d, s.own, s.I, s.F)
  {
    hide Covered, InodesOk, RolesOk, BitsOk, NoLoose;
  }

  lemma SameSize(sb: Sb, d: Disk, e: Disk, l: set<nat>, bs: seq<nat>)
    requires Framed(sb, d, e, {}, l) && Listing(l, bs)
    ensures |e| == |d| && |bs| == |l|
    ensures DiskOk(sb, d) ==> DiskOk(sb, e)
  {
  }

  lemma CleanFiles(sb: Sb, s: St, r: Disk)
    requires Consistent(sb, s) && sb.inodestart >= 3 && SbOk(sb) && L.Clean(LogOf(sb), r, s.d)
    ensures Consistent(sb, s.(d := r)) && FilesOf(s.(d := r)) == FilesOf(s) && EmptyLog(sb, r)
  {
    hide Consistent;
    ShapeOf(sb, s);
    OffLog(sb, s.d, r);
    LogIrrelevant(sb, s, r);
  }

  // ----- runs -----

  /** The files after the operations of the transactions that were kept, in order. */
  ghost function Surviving(files: Files, txs: seq<Tx>, kept: seq<bool>, n: nat): (r: Files)
    requires |kept| == |txs| && (forall i: nat :: i < n ==> i in files) && TxsOk(txs, n)
    ensures r.Keys == files.Keys
  {
    if txs == [] then files
    else
      var k := |txs| - 1;
      var f := Surviving(files, txs[..k], kept[..k], n);
      if kept[k] then Exec(f, txs[k].ops, n).0 else f
  }

  ghost predicate TxsOk(txs: seq<Tx>, n: nat) { forall k :: 0 <= k < |txs| ==> OpsOk(txs[k].ops, n) }

  /** The state after the records. */
  ghost function Last(s: St, h: seq<Rec>): St { if h == [] then s else h[|h| - 1].t }

  ghost predicate Recorded(sb: Sb, tx: Tx, s: St, r: Rec, keep: bool) {
    TxDone(sb, tx, r) && r.s == s && (keep <==> Kept(tx.fate, |r.bs|))
  }

  /** The records h continue each other from s on, and kept says which transactions were kept. */
  ghost predicate History(sb: Sb, txs: seq<Tx>, s: St, h: seq<Rec>, kept: seq<bool>) {
    && |h| == |kept| <= |txs|
    && forall k :: 0 <= k < |h| ==> Recorded(sb, txs[k], Last(s, h[..k]), h[k], kept[k])
  }

  lemma HistoryNext(sb: Sb, txs: seq<Tx>, s: St, h: seq<Rec>, kept: seq<bool>, r: Rec)
    requires History(sb, txs, s, h, kept) && |h| < |txs| && TxDone(sb, txs[|h|], r) && r.s == Last(s, h)
    ensures History(sb, txs, s, h + [r], kept + [Kept(txs[|h|].fate, |r.bs|)])
  {
    hide TxDone, Kept;
    var h', kept' := h + [r], kept + [Kept(txs[|h|].fate, |r.bs|)];
    forall k | 0 <= k < |h'| ensures Recorded(sb, txs[k], Last(s, h'[..k]), h'[k], kept'[k]) {
      assert h'[..k] == h[..k];
      if k == |h| { assert h[..k] == h; }
    }
  }

  /**
    End-to-end crash safety: run any sequence of transactions of file operations, each completed or
    stopped after any number of block writes of its commit and recovered through any number of
    further crashes. In the end the disk holds a consistent file system whose files are exactly
    those of the transactions that were kept, one after the other. The run stops only in a
    transaction that needs more blocks, or more log, than there is in the state it reached.
  */
  method RunTransactions(sb: Sb, disk: Disk, txs: seq<Tx>, ghost s: St)
    returns (o: Outcome, disk': Disk, ghost h: seq<Rec>, ghost kept: seq<bool>, ghost stop: Rec)
    requires Consistent(sb, s) && s.d == disk && EmptyLog(sb, disk) && TxsOk(txs, sb.ninodes)
    ensures forall i: nat :: i < sb.ninodes ==> i in FilesOf(s)
    ensures History(sb, txs, s, h, kept) && TxsOk(txs[..|h|], sb.ninodes)
    ensures Consistent(sb, Last(s, h)) && Last(s, h).d == disk' && EmptyLog(sb, disk')
    ensures FilesOf(Last(s, h)) == Surviving(FilesOf(s), txs[..|h|], kept, sb.ninodes)
    ensures o == Fine ==> |h| == |txs|
    ensures o != Fine ==> |h| < |txs| && stop.s == Last(s, h) && TxStopped(sb, txs[|h|], stop, o)
  {
    hide Consistent, FilesOf, Exec, OpsOk, EmptyLog, Surviving, TxDone, TxStopped, Kept, History;
    ShapeOf(sb, s);
    NoneSurviving(FilesOf(s), txs, sb.ninodes);
    disk', h, kept, stop := disk, [], [], Rec(s, [], [], [], s);
    NoHistory(sb, txs, s);
    var k := 0;
    while k < |txs|
      invariant k == |h| == |kept| <= |txs| && History(sb, txs, s, h, kept)
      invariant Consistent(sb, Last(s, h)) && Last(s, h).d == disk' && EmptyLog(sb, disk')
      invariant TxsOk(txs[..k], sb.ninodes) && FilesOf(Last(s, h)) == Surviving(FilesOf(s), txs[..k], kept, sb.ninodes)
    {
      ghost var r;
      o, disk', r := Transact(sb, disk', txs[k], Last(s, h));
      if o != Fine { stop := r; return; }
      ghost var keep := Kept(txs[k].fate, |r.bs|);
      OneMore(FilesOf(s), txs, kept, keep, k, sb.ninodes);
      HistoryNext(sb, txs, s, h, kept, r);
      h, kept := h + [r], kept + [keep];
      k := k + 1;
    }
    o := Fine;
  }

  lemma NoHistory(sb: Sb, txs: seq<Tx>, s: St)
    ensures History(sb, txs, s, [], [])
  {
  }

  lemma NoneSurviving(files: Files, txs: seq<Tx>, n: nat)
    requires forall i: nat :: i < n ==> i in files
    ensures TxsOk(txs[..0], n) && Surviving(files, txs[..0], [], n) == files
  {
  }

  lemma OneMore(files: Files, txs: seq<Tx>, kept: seq<bool>, keep: bool, k: nat, n: nat)
    requires k < |txs| && |kept| == k && TxsOk(txs, n) && forall i: nat :: i < n ==> i in files
    ensures TxsOk(txs[..k], n) && TxsOk(txs[..k + 1], n)
    ensures var f := Surviving(files, txs[..k], kept, n);
            Surviving(files, txs[..k + 1], kept + [keep], n) == if keep then Exec(f, txs[k].ops, n).0 else f
  {
    hide Exec;
    assert txs[..k + 1][..k] == txs[..k] && (kept + [keep])[..k] == kept;
  }

  lemma FreshLog(sb: Sb, d: Disk)
    requires SbOk(sb) && sb.inodestart >= 3 && |d| == sb.size && forall b: nat :: 2 <= b < sb.inodestart ==> d[b] == Zeros()
    ensures EmptyLog(sb, d)
  {
    hide Entry, Zeros;
    EntryZero(0);
  }

  /**
    From the image of mkfs on: the transactions run on what mkfs has written, and in the end the
    disk is consistent and holds the files of the transactions that were kept. What prevents it is
    an image too small for the files, a root directory that ends on a block boundary, which mkfs
    gives a hole, or one of the stops of a run.
  */
  method BootAndRun(sb: Sb, superblock: Block, entries: seq<seq<Byte>>, contents: seq<seq<Byte>>, txs: seq<Tx>)
    returns (o: Outcome, disk: Disk, ghost s: St, ghost h: seq<Rec>, ghost kept: seq<bool>, ghost stop: Rec)
    requires SbOk(sb) && Nmeta(sb) <= BPB && sb.inodestart >= 3 && Mkfs.InputOk(sb, entries, contents)
    requires TxsOk(txs, sb.ninodes)
    ensures o == ImageFull <==> !Mkfs.RoomFor(sb, contents)
    ensures o == Holed <==> Mkfs.RoomFor(sb, contents) && |entries| * Mkfs.DIRENT % BSIZE == 0
    ensures o != ImageFull ==> Mkfs.Made(sb, s, entries, contents) && (o == Holed <==> !Consistent(sb, s))
    ensures o == Holed ==> disk == s.d
    ensures o != ImageFull && o != Holed ==>
              && (forall i: nat :: i < sb.ninodes ==> i in FilesOf(s))
              && History(sb, txs, s, h, kept) && Consistent(sb, Last(s, h)) && Last(s, h).d == disk && TxsOk(txs[..|h|], sb.ninodes)
              && FilesOf(Last(s, h)) == Surviving(FilesOf(s), txs[..|h|], kept, sb.ninodes)
    ensures o == Fine ==> |h| == |txs|
    ensures o != Fine && o != ImageFull && o != Holed ==> |h| < |txs| && stop.s == Last(s, h) && TxStopped(sb, txs[|h|], stop, o)
  {
    hide Consistent, FilesOf, Surviving, TxsOk, Mkfs.Made, Mkfs.InputOk, Mkfs.RoomFor, EmptyLog, SbOk, DiskOk, Fits, TxDone, Ran, History;
    s, h, kept, disk := St([], map[], map[], map[]), [], [], [];
    stop := Rec(s, [], [], [], s);
    var ok, im := Mkfs.MakeImage(sb, superblock, entries, contents);
    if !ok { return ImageFull, im.d, s, h, kept, stop; }
    s := St(im.d, im.own, im.I, im.F);
    if |entries| * Mkfs.DIRENT % BSIZE == 0 { return Holed, im.d, s, h, kept, stop; }
    FreshLog(sb, im.d);
    o, disk, h, kept, stop := RunTransactions(sb, im.d, txs, s);
  }
}
