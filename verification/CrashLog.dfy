/**
  The physical redo log of kernel/log.c over a disk of blocks.

  A crash stops the machine after any prefix of the synchronous block writes; one block
  write is atomic. The module gives the writes of commit() and recover_from_log() as sequences
  and proves what every prefix of them leaves behind.
*/
module CrashLog {
  import F = FsDisk
  import opened Param

  type Block = F.Block
  type Disk = F.Disk

  datatype Write = Write(blockno: nat, data: Block)

  /** log.start and log.size: a header block followed by size-1 data slots. */
  datatype Layout = Layout(start: nat, size: nat)

  predicate InLog(l: Layout, b: int) { l.start <= b < l.start + l.size }

  predicate LayoutOk(l: Layout, d: Disk) { 1 <= l.size && l.start + l.size <= |d| <= 0x1_0000_0000 }

  /** The block numbers of one transaction: distinct, on the disk, and never log blocks. */
  predicate TxOk(l: Layout, d: Disk, bs: seq<nat>) {
    && |bs| <= LOGSIZE && |bs| <= l.size - 1
    && (forall i :: 0 <= i < |bs| ==> 0 <= bs[i] < |d| && !InLog(l, bs[i]))
    && (forall i, j :: 0 <= i < j < |bs| ==> bs[i] != bs[j])
  }

  predicate AgreeOffLog(l: Layout, d: Disk, e: Disk) {
    |d| == |e| && forall b :: 0 <= b < |d| && !InLog(l, b) ==> d[b] == e[b]
  }

  /** The first n data slots of the log. */
  function Slots(l: Layout, d: Disk, n: nat): (vs: seq<Block>)
    requires LayoutOk(l, d) && n <= l.size - 1
    ensures |vs| == n && forall i :: 0 <= i < n ==> vs[i] == d[l.start + 1 + i]
  {
    d[l.start + 1..l.start + 1 + n]
  }

  // ----- sequences of block writes -----

  function Put(d: Disk, w: Write): (r: Disk)
    ensures |r| == |d|
  {
    if w.blockno < |d| then d[w.blockno := w.data] else d
  }

  /** The disk after the first k of the writes ws. */
  function After(d: Disk, ws: seq<Write>, k: nat): (r: Disk)
    requires k <= |ws|
    ensures |r| == |d|
  {
    if k == 0 then d else Put(After(d, ws, k - 1), ws[k - 1])
  }

  function Apply(d: Disk, ws: seq<Write>): (r: Disk)
    ensures |r| == |d|
  {
    After(d, ws, |ws|)
  }

  /** Only the first k writes matter. */
  lemma {:induction false} AfterPrefix(d: Disk, ws: seq<Write>, vs: seq<Write>, k: nat)
    requires k <= |ws| && k <= |vs| && forall i :: 0 <= i < k ==> ws[i] == vs[i]
    ensures After(d, ws, k) == After(d, vs, k)
  {
    if k > 0 { AfterPrefix(d, ws, vs, k - 1); }
  }

  /** Writes after the first |ws| act on the disk those left. */
  lemma {:induction false} AfterConcat(d: Disk, ws: seq<Write>, vs: seq<Write>, k: nat)
    requires |ws| <= k <= |ws| + |vs|
    ensures After(d, ws + vs, k) == After(Apply(d, ws), vs, k - |ws|)
  {
    if k == |ws| {
      AfterPrefix(d, ws + vs, ws, k);
    } else {
      AfterConcat(d, ws, vs, k - 1);
    }
  }

  lemma ApplySingle(d: Disk, w: Write)
    ensures Apply(d, [w]) == Put(d, w)
  {
    assert After(d, [w], 0) == d;
  }

  lemma ApplyConcat(d: Disk, ws: seq<Write>, vs: seq<Write>)
    ensures Apply(d, ws + vs) == Apply(Apply(d, ws), vs)
  {
    AfterConcat(d, ws, vs, |ws + vs|);
  }

  lemma ApplyOne(d: Disk, ws: seq<Write>, b: nat, v: Block)
    requires b < |d|
    ensures Apply(d, ws + [Write(b, v)]) == Apply(d, ws)[b := v]
  {
    AfterPrefix(d, ws + [Write(b, v)], ws, |ws|);
  }

  /** A block no write names keeps its contents. */
  lemma {:induction false} AfterFrame(d: Disk, ws: seq<Write>, k: nat, b: nat)
    requires b < |d| && k <= |ws|
    requires forall i :: 0 <= i < k ==> ws[i].blockno != b
    ensures After(d, ws, k)[b] == d[b]
  {
    if k > 0 { AfterFrame(d, ws, k - 1, b); }
  }

  /** A block written once holds what was written. */
  lemma {:induction false} AfterHit(d: Disk, ws: seq<Write>, k: nat, i: nat)
    requires i < k <= |ws| && ws[i].blockno < |d|
    requires forall j :: i < j < k ==> ws[j].blockno != ws[i].blockno
    ensures After(d, ws, k)[ws[i].blockno] == ws[i].data
  {
    if i < k - 1 { AfterHit(d, ws, k - 1, i); }
  }

  // ----- the on-disk header -----

  /** n of a header block, and the first n of its block numbers. */
  function Num(h: Block): nat { F.Entry(h, 0) }

  function Nums(h: Block, n: nat): (bs: seq<nat>)
    requires n <= LOGSIZE
    ensures |bs| == n && forall i :: 0 <= i < n ==> bs[i] == F.Entry(h, 1 + i)
  {
    if n == 0 then [] else Nums(h, n - 1) + [F.Entry(h, n)]
  }

  predicate Encodable(bs: seq<nat>) { |bs| <= LOGSIZE && forall i :: 0 <= i < |bs| ==> bs[i] < 0x1_0000_0000 }

  function PutNums(h: Block, bs: seq<nat>): Block
    requires Encodable(bs)
  {
    if bs == [] then h else F.PutEntry(PutNums(h, bs[..|bs| - 1]), |bs|, bs[|bs| - 1])
  }

  /** write_head: n and block[0..n] replace the first words, the rest of the buffer stays. */
  function Encode(h: Block, bs: seq<nat>): Block
    requires Encodable(bs)
  {
    PutNums(F.PutEntry(h, 0, |bs|), bs)
  }

  predicate HeaderOk(l: Layout, d: Disk) {
    && LayoutOk(l, d)
    && Num(d[l.start]) <= LOGSIZE
    && TxOk(l, d, Nums(d[l.start], Num(d[l.start])))
  }

  /** read_head: the block numbers the on-disk header names. */
  function Logged(l: Layout, d: Disk): (bs: seq<nat>)
    requires HeaderOk(l, d)
  {
    Nums(d[l.start], Num(d[l.start]))
  }

  lemma {:induction false} PutNumsAt(h: Block, bs: seq<nat>, k: nat)
    requires Encodable(bs) && k < F.NINDIRECT
    ensures F.Entry(PutNums(h, bs), k) == if 1 <= k <= |bs| then bs[k - 1] else F.Entry(h, k)
  {
    if bs != [] {
      PutNumsAt(h, bs[..|bs| - 1], k);
      F.EntryPut(PutNums(h, bs[..|bs| - 1]), |bs|, bs[|bs| - 1], k);
    }
  }

  lemma EncodeDecode(h: Block, bs: seq<nat>)
    requires Encodable(bs)
    ensures Num(Encode(h, bs)) == |bs| && Nums(Encode(h, bs), |bs|) == bs
  {
    var g := F.PutEntry(h, 0, |bs|);
    F.EntryPut(h, 0, |bs|, 0);
    PutNumsAt(g, bs, 0);
    forall i | 0 <= i < |bs| ensures Nums(Encode(h, bs), |bs|)[i] == bs[i] { PutNumsAt(g, bs, 1 + i); }
  }

  // ----- the writes of commit() and recover_from_log() -----

  /** Home-location writes that copy the values vs to the blocks bs. */
  function HomeWrites(bs: seq<nat>, vs: seq<Block>): (ws: seq<Write>)
    requires |bs| == |vs|
    requires forall i :: 0 <= i < |bs| ==> 0 <= bs[i]
    ensures |ws| == |bs|
    ensures forall i :: 0 <= i < |bs| ==> ws[i] == Write(bs[i], vs[i])
  {
    if bs == [] then []
    else HomeWrites(bs[..|bs| - 1], vs[..|bs| - 1]) + [Write(bs[|bs| - 1], vs[|bs| - 1])]
  }

  function SlotWrites(l: Layout, vs: seq<Block>): (ws: seq<Write>)
    ensures |ws| == |vs|
    ensures forall i :: 0 <= i < |vs| ==> ws[i] == Write(l.start + 1 + i, vs[i])
  {
    if vs == [] then [] else SlotWrites(l, vs[..|vs| - 1]) + [Write(l.start + |vs|, vs[|vs| - 1])]
  }

  /** commit(): log blocks, header, home locations, cleared header. */
  function CommitWrites(l: Layout, d: Disk, bs: seq<nat>, vs: seq<Block>): (ws: seq<Write>)
    requires LayoutOk(l, d) && TxOk(l, d, bs) && |bs| == |vs|
  {
    if bs == [] then []
    else
      var h := Encode(d[l.start], bs);
      SlotWrites(l, vs) + [Write(l.start, h)] + HomeWrites(bs, vs) + [Write(l.start, Encode(h, []))]
  }

  /** recover_from_log(): home locations from the log slots, then a cleared header. */
  function RecoveryWrites(l: Layout, d: Disk): (ws: seq<Write>)
    requires HeaderOk(l, d)
  {
    var bs := Logged(l, d);
    HomeWrites(bs, Slots(l, d, |bs|)) + [Write(l.start, Encode(d[l.start], []))]
  }

  /** The state a transaction asks for: the blocks bs hold vs, all else is as before. */
  function NewState(d: Disk, bs: seq<nat>, vs: seq<Block>): (e: Disk)
    requires |bs| == |vs| && forall i :: 0 <= i < |bs| ==> 0 <= bs[i]
  {
    Apply(d, HomeWrites(bs, vs))
  }

  // ----- what a crash can leave behind -----

  /** Nothing is committed in the log and the home locations are those of e. */
  predicate Clean(l: Layout, d: Disk, e: Disk) {
    LayoutOk(l, d) && Num(d[l.start]) == 0 && AgreeOffLog(l, d, e)
  }

  /** The header commits (bs, vs); home locations outside bs are those of e. */
  predicate Committed(l: Layout, d: Disk, e: Disk, bs: seq<nat>, vs: seq<Block>) {
    && LayoutOk(l, d) && |d| == |e| && TxOk(l, d, bs) && |bs| == |vs|
    && Num(d[l.start]) == |bs| && Nums(d[l.start], |bs|) == bs
    && Slots(l, d, |bs|) == vs
    && (forall b :: 0 <= b < |d| && !InLog(l, b) && b !in bs ==> d[b] == e[b])
  }

  predicate Recoverable(l: Layout, d: Disk, e: Disk, bs: seq<nat>, vs: seq<Block>)
    requires LayoutOk(l, e) && TxOk(l, e, bs) && |bs| == |vs|
  {
    Committed(l, d, e, bs, vs) || Clean(l, d, NewState(e, bs, vs))
  }

  lemma CleanHeaderOk(l: Layout, d: Disk, e: Disk)
    requires Clean(l, d, e)
    ensures HeaderOk(l, d) && Logged(l, d) == []
  {
  }

  /** The disk after a crash that let the first k writes of recovery through. */
  function CrashedRecovery(l: Layout, d: Disk, k: nat): (r: Disk)
    requires HeaderOk(l, d)
    ensures |r| == |d|
  {
    var ws := RecoveryWrites(l, d);
    After(d, ws, if k < |ws| then k else |ws|)
  }

  function Recover(l: Layout, d: Disk): (r: Disk)
    requires HeaderOk(l, d)
  {
    Apply(d, RecoveryWrites(l, d))
  }

  /** Which blocks the first j home writes change, and to what. */
  lemma HomeWritesAt(l: Layout, d: Disk, bs: seq<nat>, vs: seq<Block>, j: nat)
    requires LayoutOk(l, d) && TxOk(l, d, bs) && |bs| == |vs| && j <= |bs|
    ensures var r := After(d, HomeWrites(bs, vs), j);
            && (forall i :: 0 <= i < j ==> r[bs[i]] == vs[i])
            && (forall b :: 0 <= b < |d| && b !in bs ==> r[b] == d[b])
            && (forall b :: InLog(l, b) ==> r[b] == d[b])
  {
    var ws := HomeWrites(bs, vs);
    var r := After(d, ws, j);
    forall i | 0 <= i < j ensures r[bs[i]] == vs[i] { AfterHit(d, ws, j, i); }
    forall b | 0 <= b < |d| && b !in bs ensures r[b] == d[b] { AfterFrame(d, ws, j, b); }
    forall b | InLog(l, b) ensures r[b] == d[b] { AfterFrame(d, ws, j, b); }
  }

  lemma NewStateAt(l: Layout, d: Disk, bs: seq<nat>, vs: seq<Block>)
    requires LayoutOk(l, d) && TxOk(l, d, bs) && |bs| == |vs|
    ensures forall i :: 0 <= i < |bs| ==> NewState(d, bs, vs)[bs[i]] == vs[i]
    ensures forall b :: 0 <= b < |d| && b !in bs ==> NewState(d, bs, vs)[b] == d[b]
  {
    HomeWritesAt(l, d, bs, vs, |bs|);
  }

  /** Copying a prefix of the committed slots home changes only the blocks of the transaction. */
  lemma PartialInstall(l: Layout, d: Disk, e: Disk, bs: seq<nat>, vs: seq<Block>, j: nat)
    requires Committed(l, d, e, bs, vs) && j <= |bs|
    ensures Committed(l, After(d, HomeWrites(bs, vs), j), e, bs, vs)
  {
    HomeWritesAt(l, d, bs, vs, j);
    SlotsAgree(l, d, After(d, HomeWrites(bs, vs), j), |bs|);
  }

  lemma SlotsAgree(l: Layout, d: Disk, r: Disk, n: nat)
    requires LayoutOk(l, d) && |r| == |d| && n <= l.size - 1
    requires forall b :: InLog(l, b) ==> r[b] == d[b]
    ensures Slots(l, r, n) == Slots(l, d, n)
  {
  }

  /** Clearing the header after a full install makes the transaction's state the home state. */
  lemma FullInstall(l: Layout, d: Disk, e: Disk, bs: seq<nat>, vs: seq<Block>, h: Block)
    requires LayoutOk(l, e) && Committed(l, d, e, bs, vs) && Num(h) == 0
    ensures Clean(l, Apply(d, HomeWrites(bs, vs) + [Write(l.start, h)]), NewState(e, bs, vs))
  {
    var ws := HomeWrites(bs, vs);
    HomeWritesAt(l, d, bs, vs, |bs|);
    ApplyOne(d, ws, l.start, h);
    var r := Apply(d, ws)[l.start := h];
    NewStateAt(l, e, bs, vs);
    forall b | 0 <= b < |d| && !InLog(l, b) ensures r[b] == NewState(e, bs, vs)[b] {
      if b in bs { var i :| 0 <= i < |bs| && bs[i] == b; }
    }
  }

  /** Recovery of a committed transaction, cut off after k writes or run to the end. */
  lemma CommittedRecovery(l: Layout, d: Disk, e: Disk, bs: seq<nat>, vs: seq<Block>, k: nat)
    requires LayoutOk(l, e) && TxOk(l, e, bs) && Committed(l, d, e, bs, vs)
    ensures Recoverable(l, CrashedRecovery(l, d, k), e, bs, vs)
    ensures Clean(l, Recover(l, d), NewState(e, bs, vs))
  {
    var hw := HomeWrites(bs, vs);
    var ws := RecoveryWrites(l, d);
    var h := Encode(d[l.start], []);
    EncodeDecode(d[l.start], []);
    assert ws == hw + [Write(l.start, h)];
    FullInstall(l, d, e, bs, vs, h);
    if k < |ws| {
      AfterPrefix(d, ws, hw, k);
      PartialInstall(l, d, e, bs, vs, k);
    }
  }

  /** Recovery with an empty log only rewrites the header. */
  lemma CleanRecovery(l: Layout, d: Disk, e: Disk, k: nat)
    requires Clean(l, d, e)
    ensures HeaderOk(l, d)
    ensures Clean(l, CrashedRecovery(l, d, k), e)
    ensures Clean(l, Recover(l, d), e)
  {
    CleanHeaderOk(l, d, e);
    var w := Write(l.start, Encode(d[l.start], []));
    EncodeDecode(d[l.start], []);
    assert RecoveryWrites(l, d) == [w];
    assert After(d, [w], 0) == d;
    assert After(d, [w], 1) == d[l.start := w.data];
  }

  /** A crash anywhere inside recovery leaves a disk that recovery still repairs. */
  lemma CrashedRecoveryStep(l: Layout, d: Disk, e: Disk, bs: seq<nat>, vs: seq<Block>, k: nat)
    requires LayoutOk(l, e) && TxOk(l, e, bs) && |bs| == |vs|
    requires Recoverable(l, d, e, bs, vs)
    ensures HeaderOk(l, d)
    ensures Recoverable(l, CrashedRecovery(l, d, k), e, bs, vs)
    ensures Clean(l, Recover(l, d), NewState(e, bs, vs))
  {
    if Committed(l, d, e, bs, vs) {
      CommittedRecovery(l, d, e, bs, vs, k);
    } else {
      CleanRecovery(l, d, NewState(e, bs, vs), k);
    }
  }

  /** Recovery restarted after each of the crashes ks, and finally run to the end. */
  ghost predicate RecoversTo(l: Layout, d: Disk, ks: seq<nat>, r: Disk)
    decreases |ks|
  {
    HeaderOk(l, d) &&
    if ks == [] then r == Recover(l, d)
    else RecoversTo(l, CrashedRecovery(l, d, ks[0]), ks[1..], r)
  }

  lemma {:induction false} RepeatedCrashes(l: Layout, d: Disk, e: Disk, bs: seq<nat>, vs: seq<Block>, ks: seq<nat>)
    returns (r: Disk)
    requires LayoutOk(l, e) && TxOk(l, e, bs) && |bs| == |vs|
    requires Recoverable(l, d, e, bs, vs)
    ensures RecoversTo(l, d, ks, r) && Clean(l, r, NewState(e, bs, vs))
    decreases |ks|
  {
    if ks == [] {
      CrashedRecoveryStep(l, d, e, bs, vs, 0);
      r := Recover(l, d);
    } else {
      CrashedRecoveryStep(l, d, e, bs, vs, ks[0]);
      r := RepeatedCrashes(l, CrashedRecovery(l, d, ks[0]), e, bs, vs, ks[1..]);
    }
  }

  /** Before the header write nothing is committed and no home location has changed. */
  lemma CrashBeforeCommit(l: Layout, d: Disk, bs: seq<nat>, vs: seq<Block>, k: nat)
    requires LayoutOk(l, d) && TxOk(l, d, bs) && |bs| == |vs|
    requires Num(d[l.start]) == 0 && bs != [] && k <= |bs|
    ensures Clean(l, After(d, CommitWrites(l, d, bs, vs), k), d)
  {
    var ws := CommitWrites(l, d, bs, vs);
    var r := After(d, ws, k);
    forall i | 0 <= i < k ensures l.start < ws[i].blockno < l.start + l.size {
      assert ws[i] == SlotWrites(l, vs)[i];
    }
    forall b | 0 <= b < |d| && !(l.start < b < l.start + l.size) ensures r[b] == d[b] { AfterFrame(d, ws, k, b); }
  }

  /** Between the header write and its erasure the log commits the transaction. */
  lemma CrashWhileInstalling(l: Layout, d: Disk, bs: seq<nat>, vs: seq<Block>, k: nat)
    requires LayoutOk(l, d) && TxOk(l, d, bs) && |bs| == |vs|
    requires bs != [] && |bs| < k < |CommitWrites(l, d, bs, vs)|
    ensures Committed(l, After(d, CommitWrites(l, d, bs, vs), k), d, bs, vs)
  {
    var log := SlotWrites(l, vs) + [Write(l.start, Encode(d[l.start], bs))];
    var hw := HomeWrites(bs, vs);
    var c := Apply(d, log);
    assert After(d, CommitWrites(l, d, bs, vs), k) == After(c, hw, k - |log|) by {
      CommitPrefix(l, d, bs, vs, k);
    }
    HeaderWritten(l, d, bs, vs);
    PartialInstall(l, c, d, bs, vs, k - |log|);
  }

  lemma CommitPrefix(l: Layout, d: Disk, bs: seq<nat>, vs: seq<Block>, k: nat)
    requires LayoutOk(l, d) && TxOk(l, d, bs) && |bs| == |vs|
    requires bs != [] && |bs| < k < |CommitWrites(l, d, bs, vs)|
    ensures var log := SlotWrites(l, vs) + [Write(l.start, Encode(d[l.start], bs))];
            After(d, CommitWrites(l, d, bs, vs), k) == After(Apply(d, log), HomeWrites(bs, vs), k - |log|)
  {
    var log := SlotWrites(l, vs) + [Write(l.start, Encode(d[l.start], bs))];
    var hw := HomeWrites(bs, vs);
    AfterPrefix(d, CommitWrites(l, d, bs, vs), log + hw, k);
    AfterConcat(d, log, hw, k);
  }

  /** From the header write on the transaction is recoverable. */
  lemma CrashAfterCommit(l: Layout, d: Disk, bs: seq<nat>, vs: seq<Block>, k: nat)
    requires LayoutOk(l, d) && TxOk(l, d, bs) && |bs| == |vs|
    requires bs != [] && |bs| < k <= |CommitWrites(l, d, bs, vs)|
    ensures Recoverable(l, After(d, CommitWrites(l, d, bs, vs), k), d, bs, vs)
  {
    hide CommitWrites, Committed, Clean, NewState, After, TxOk;
    if k < |CommitWrites(l, d, bs, vs)| {
      CrashWhileInstalling(l, d, bs, vs, k);
    } else {
      CompleteCommit(l, d, bs, vs);
      assert After(d, CommitWrites(l, d, bs, vs), k) == Apply(d, CommitWrites(l, d, bs, vs));
    }
  }

  /** The slot writes fill the slots and touch nothing else. */
  lemma SlotWritesAt(l: Layout, d: Disk, vs: seq<Block>)
    requires LayoutOk(l, d) && |vs| <= l.size - 1
    ensures var r := Apply(d, SlotWrites(l, vs));
            && (forall i :: 0 <= i < |vs| ==> r[l.start + 1 + i] == vs[i])
            && (forall b :: 0 <= b < |d| && !(l.start < b < l.start + l.size) ==> r[b] == d[b])
  {
    var ws := SlotWrites(l, vs);
    var r := Apply(d, ws);
    forall i | 0 <= i < |vs| ensures r[l.start + 1 + i] == vs[i] { AfterHit(d, ws, |ws|, i); }
    forall b | 0 <= b < |d| && !(l.start < b < l.start + l.size) ensures r[b] == d[b] { AfterFrame(d, ws, |ws|, b); }
  }

  lemma HeaderWritten(l: Layout, d: Disk, bs: seq<nat>, vs: seq<Block>)
    requires LayoutOk(l, d) && TxOk(l, d, bs) && |bs| == |vs|
    ensures Committed(l, Apply(d, SlotWrites(l, vs) + [Write(l.start, Encode(d[l.start], bs))]), d, bs, vs)
  {
    hide Encode, Num, Nums, After, Apply, SlotWrites;
    var ws := SlotWrites(l, vs);
    var h := Encode(d[l.start], bs);
    ApplyOne(d, ws, l.start, h);
    var c := Apply(d, ws)[l.start := h];
    SlotWritesAt(l, d, vs);
    EncodeDecode(d[l.start], bs);
    assert Slots(l, c, |bs|) == vs;
  }

  /**
    Crash atomicity. Stop commit() after any k of its block writes, then run recovery with any
    number of further crashes inside it: every home location ends as the transaction found it
    or as the transaction wanted it, and it is the latter exactly when the header write
    reached the disk (k > |bs|).
  */
  lemma CrashAtomicity(l: Layout, d: Disk, bs: seq<nat>, vs: seq<Block>, k: nat, ks: seq<nat>)
    returns (r: Disk)
    requires LayoutOk(l, d) && TxOk(l, d, bs) && |bs| == |vs| && Num(d[l.start]) == 0
    requires k <= |CommitWrites(l, d, bs, vs)|
    ensures RecoversTo(l, After(d, CommitWrites(l, d, bs, vs), k), ks, r)
    ensures Clean(l, r, if k > |bs| then NewState(d, bs, vs) else d)
    ensures !AgreeOffLog(l, d, NewState(d, bs, vs)) ==>
              (AgreeOffLog(l, r, NewState(d, bs, vs)) <==> k > |bs|)
  {
    var dc := After(d, CommitWrites(l, d, bs, vs), k);
    if k > |bs| {
      CrashAfterCommit(l, d, bs, vs, k);
      r := RepeatedCrashes(l, dc, d, bs, vs, ks);
    } else {
      if bs != [] { CrashBeforeCommit(l, d, bs, vs, k); }
      assert NewState(d, [], []) == d;
      r := RepeatedCrashes(l, dc, d, [], [], ks);
    }
  }

  // ----- whole runs -----

  /** One transaction of a run: stopped after k writes and recovered through the crashes ks. */
  datatype Event =
    | Done(bs: seq<nat>, vs: seq<Block>)
    | Crash(bs: seq<nat>, vs: seq<Block>, k: nat, ks: seq<nat>)

  ghost predicate EventOk(l: Layout, d: Disk, ev: Event) {
    && TxOk(l, d, ev.bs) && |ev.bs| == |ev.vs|
    && (ev.Crash? ==> LayoutOk(l, d) && ev.k <= |CommitWrites(l, d, ev.bs, ev.vs)|)
  }

  ghost predicate StepsTo(l: Layout, d: Disk, ev: Event, r: Disk)
    requires LayoutOk(l, d) && EventOk(l, d, ev)
  {
    match ev
    case Done(bs, vs) => r == Apply(d, CommitWrites(l, d, bs, vs))
    case Crash(bs, vs, k, ks) => RecoversTo(l, After(d, CommitWrites(l, d, bs, vs), k), ks, r)
  }

  /** What the event does to the state a user sees: all of the transaction or nothing. */
  function Meaning(e: Disk, ev: Event): (r: Disk)
    requires |ev.bs| == |ev.vs| && forall i :: 0 <= i < |ev.bs| ==> 0 <= ev.bs[i]
    ensures |r| == |e|
  {
    if ev.Crash? && ev.k <= |ev.bs| then e else NewState(e, ev.bs, ev.vs)
  }

  /** A run of events over the disks ds, beginning in ds[0]. */
  ghost predicate IsRun(l: Layout, ds: seq<Disk>, evs: seq<Event>) {
    && |ds| == |evs| + 1
    && LayoutOk(l, ds[0]) && Num(ds[0][l.start]) == 0
    && forall i :: 0 <= i < |evs| ==>
         && LayoutOk(l, ds[i]) && EventOk(l, ds[i], evs[i])
         && StepsTo(l, ds[i], evs[i], ds[i + 1])
  }

  /** Serial application of whole transactions, skipping those that did not commit. */
  function Serial(e: Disk, evs: seq<Event>): (r: Disk)
    requires forall i :: 0 <= i < |evs| ==>
               |evs[i].bs| == |evs[i].vs| && forall j :: 0 <= j < |evs[i].bs| ==> 0 <= evs[i].bs[j]
    ensures |r| == |e|
  {
    if evs == [] then e else Meaning(Serial(e, evs[..|evs| - 1]), evs[|evs| - 1])
  }

  lemma {:induction false} RecoversToUnique(l: Layout, d: Disk, ks: seq<nat>, r: Disk, s: Disk)
    requires RecoversTo(l, d, ks, r) && RecoversTo(l, d, ks, s)
    ensures r == s
    decreases |ks|
  {
    if ks != [] { RecoversToUnique(l, CrashedRecovery(l, d, ks[0]), ks[1..], r, s); }
  }

  lemma MeaningAgrees(l: Layout, d: Disk, e: Disk, ev: Event)
    requires LayoutOk(l, d) && TxOk(l, d, ev.bs) && |ev.bs| == |ev.vs| && AgreeOffLog(l, d, e)
    ensures AgreeOffLog(l, Meaning(d, ev), Meaning(e, ev))
  {
    NewStateAt(l, d, ev.bs, ev.vs);
    NewStateAt(l, e, ev.bs, ev.vs);
    forall b | 0 <= b < |d| && !InLog(l, b) ensures Meaning(d, ev)[b] == Meaning(e, ev)[b] {
      if b in ev.bs { var i :| 0 <= i < |ev.bs| && ev.bs[i] == b; }
    }
  }

  /**
    Over every run of commits, crashes and repeated recoveries the home locations are those
    of the committed transactions applied one after the other, and the log ends empty.
  */
  lemma {:induction false} RunIsSerial(l: Layout, ds: seq<Disk>, evs: seq<Event>)
    requires IsRun(l, ds, evs)
    ensures Clean(l, ds[|evs|], Serial(ds[0], evs))
    decreases |evs|
  {
    if evs != [] {
      var n := |evs| - 1;
      RunIsSerial(l, ds[..n + 1], evs[..n]);
      var d, ev := ds[n], evs[n];
      if ev.Crash? {
        var r := CrashAtomicity(l, d, ev.bs, ev.vs, ev.k, ev.ks);
        RecoversToUnique(l, After(d, CommitWrites(l, d, ev.bs, ev.vs), ev.k), ev.ks, r, ds[n + 1]);
      } else {
        CompleteCommit(l, d, ev.bs, ev.vs);
      }
      MeaningAgrees(l, d, Serial(ds[0], evs[..n]), ev);
    }
  }

  /** A commit that is not interrupted installs the transaction and clears the log. */
  lemma CompleteCommit(l: Layout, d: Disk, bs: seq<nat>, vs: seq<Block>)
    requires LayoutOk(l, d) && TxOk(l, d, bs) && |bs| == |vs|
    requires bs == [] ==> Num(d[l.start]) == 0
    ensures Clean(l, Apply(d, CommitWrites(l, d, bs, vs)), NewState(d, bs, vs))
  {
    if bs != [] {
      var h := Encode(d[l.start], bs);
      var log := SlotWrites(l, vs) + [Write(l.start, h)];
      var rest := HomeWrites(bs, vs) + [Write(l.start, Encode(h, []))];
      assert CommitWrites(l, d, bs, vs) == log + rest;
      ApplyConcat(d, log, rest);
      HeaderWritten(l, d, bs, vs);
      EncodeDecode(h, []);
      FullInstall(l, Apply(d, log), d, bs, vs, Encode(h, []));
    }
  }

  // ----- the in-memory log -----

  /** The contents mem holds for the blocks bs. */
  function Values(mem: Disk, bs: seq<nat>): (vs: seq<Block>)
    requires forall i :: 0 <= i < |bs| ==> 0 <= bs[i] < |mem|
    ensures |vs| == |bs| && forall i :: 0 <= i < |bs| ==> vs[i] == mem[bs[i]]
  {
    if bs == [] then [] else Values(mem, bs[..|bs| - 1]) + [mem[bs[|bs| - 1]]]
  }

  /** What bread returns differs from the disk only on logged blocks. */
  ghost predicate Coherent(d: Disk, mem: Disk, bs: seq<nat>) {
    |mem| == |d| && forall b :: 0 <= b < |d| && b !in bs ==> mem[b] == d[b]
  }

  /** The disk, the disk as the buffer cache presents it, and every block write issued. */
  datatype Machine = Machine(disk: Disk, mem: Disk, trace: seq<Write>)

  /** bwrite sends a buffer to the disk: both views change and the write is on record. */
  ghost predicate Issued(m0: Machine, m: Machine, ws: seq<Write>) {
    m == Machine(Apply(m0.disk, ws), Apply(m0.mem, ws), m0.trace + ws)
  }

  lemma IssuedConcat(m0: Machine, m1: Machine, m2: Machine, ws: seq<Write>, vs: seq<Write>)
    requires Issued(m0, m1, ws) && Issued(m1, m2, vs)
    ensures Issued(m0, m2, ws + vs)
  {
    ApplyConcat(m0.disk, ws, vs);
    ApplyConcat(m0.mem, ws, vs);
  }

  /** A loop that has issued the first k of the writes ws. */
  ghost predicate Issuing(m0: Machine, m: Machine, ws: seq<Write>, k: nat) {
    k <= |ws| && m == Machine(After(m0.disk, ws, k), After(m0.mem, ws, k), m0.trace + ws[..k])
  }

  lemma IssueNext(m0: Machine, m: Machine, ws: seq<Write>, k: nat)
    requires Issuing(m0, m, ws, k) && k < |ws| && ws[k].blockno < |m0.disk| == |m0.mem|
    ensures var w := ws[k];
            Issuing(m0, Machine(m.disk[w.blockno := w.data], m.mem[w.blockno := w.data], m.trace + [w]), ws, k + 1)
  {
    assert ws[..k + 1] == ws[..k] + [ws[k]];
  }

  // ----- the stages of commit() and recovery -----

  lemma RecoveryStages(l: Layout, m0: Machine, m1: Machine, m2: Machine)
    requires HeaderOk(l, m0.disk) && m0.mem == m0.disk
    requires var bs := Logged(l, m0.disk); Issued(m0, m1, HomeWrites(bs, Slots(l, m0.mem, |bs|)))
    requires Issued(m1, m2, [Write(l.start, Encode(m1.mem[l.start], []))])
    ensures Issued(m0, m2, RecoveryWrites(l, m0.disk))
  {
    var bs := Logged(l, m0.disk);
    var hw := HomeWrites(bs, Slots(l, m0.mem, |bs|));
    AfterFrame(m0.mem, hw, |bs|, l.start);
    IssuedConcat(m0, m1, m2, hw, [Write(l.start, Encode(m1.mem[l.start], []))]);
  }

  /** The four stages of commit() put together. */
  lemma CommitStages(l: Layout, bs: seq<nat>, m0: Machine, m1: Machine, m2: Machine, m3: Machine, m4: Machine)
    requires LayoutOk(l, m0.disk) && TxOk(l, m0.disk, bs) && Coherent(m0.disk, m0.mem, bs) && bs != []
    requires |m1.mem| == |m2.mem| == |m3.mem| == |m0.mem|
    requires Issued(m0, m1, SlotWrites(l, Values(m0.mem, bs)))
    requires Issued(m1, m2, [Write(l.start, Encode(m1.mem[l.start], bs))])
    requires Issued(m2, m3, HomeWrites(bs, Slots(l, m2.mem, |bs|)))
    requires Issued(m3, m4, [Write(l.start, Encode(m3.mem[l.start], []))])
    ensures Issued(m0, m4, CommitWrites(l, m0.disk, bs, Values(m0.mem, bs)))
  {
    hide Encode, After, SlotWrites, HomeWrites, Values, Slots;
    var vs := Values(m0.mem, bs);
    var sw, w := SlotWrites(l, vs), [Write(l.start, Encode(m1.mem[l.start], bs))];
    var hw, z := HomeWrites(bs, Slots(l, m2.mem, |bs|)), [Write(l.start, Encode(m3.mem[l.start], []))];
    AfterFrame(m0.mem, sw, |bs|, l.start);
    ApplySingle(m1.mem, w[0]);
    SlotsHold(l, m0.mem, m1.mem, m2.mem, vs);
    AfterFrame(m2.mem, hw, |bs|, l.start);
    IssuedConcat(m0, m1, m2, sw, w);
    IssuedConcat(m0, m2, m3, sw + w, hw);
    IssuedConcat(m0, m3, m4, sw + w + hw, z);
    assert z[0].data == Encode(w[0].data, []);
  }

  /** The slots hold what write_log put there, also after the header is written. */
  lemma SlotsHold(l: Layout, d0: Disk, d1: Disk, d2: Disk, vs: seq<Block>)
    requires LayoutOk(l, d0) && |vs| <= l.size - 1
    requires d1 == Apply(d0, SlotWrites(l, vs))
    requires |d2| == |d1| && forall b :: 0 <= b < |d1| && b != l.start ==> d2[b] == d1[b]
    ensures Slots(l, d2, |vs|) == vs
  {
    SlotWritesAt(l, d0, vs);
  }

  /** A commit moves what reads return to the home locations and leaves every buffer clean. */
  lemma CommitResult(l: Layout, m0: Machine, m: Machine, bs: seq<nat>)
    requires LayoutOk(l, m0.disk) && TxOk(l, m0.disk, bs) && Coherent(m0.disk, m0.mem, bs)
    requires Num(m0.disk[l.start]) == 0
    requires Issued(m0, m, CommitWrites(l, m0.disk, bs, Values(m0.mem, bs)))
    ensures m.mem == m.disk && Num(m.disk[l.start]) == 0 && AgreeOffLog(l, m.disk, m0.mem)
  {
    var vs := Values(m0.mem, bs);
    CompleteCommit(l, m0.disk, bs, vs);
    NewStateAt(l, m0.disk, bs, vs);
    forall b | 0 <= b < |m.disk| && !InLog(l, b) ensures NewState(m0.disk, bs, vs)[b] == m0.mem[b] {
      if b in bs { var i :| 0 <= i < |bs| && bs[i] == b; }
    }
    AllWritten(l, m0, bs, vs);
  }

  /** Every block that was dirty is written by the commit. */
  lemma AllWritten(l: Layout, m: Machine, bs: seq<nat>, vs: seq<Block>)
    requires LayoutOk(l, m.disk) && TxOk(l, m.disk, bs) && Coherent(m.disk, m.mem, bs) && |bs| == |vs|
    ensures var cw := CommitWrites(l, m.disk, bs, vs); Apply(m.mem, cw) == Apply(m.disk, cw)
  {
    var cw := CommitWrites(l, m.disk, bs, vs);
    forall b | 0 <= b < |m.disk| ensures Apply(m.mem, cw)[b] == Apply(m.disk, cw)[b] {
      if b in bs {
        var i :| 0 <= i < |bs| && bs[i] == b;
        assert cw[|bs| + 1 + i].blockno == b;
      }
      SameWrites(m.disk, m.mem, cw, |cw|, b);
    }
  }

  /** The same writes make two disks agree wherever they agreed or a write landed. */
  lemma {:induction false} SameWrites(d: Disk, e: Disk, ws: seq<Write>, k: nat, b: nat)
    requires |d| == |e| && b < |d| && k <= |ws|
    requires d[b] == e[b] || exists i :: 0 <= i < k && ws[i].blockno == b
    ensures After(d, ws, k)[b] == After(e, ws, k)[b]
  {
    if k > 0 && ws[k - 1].blockno != b { SameWrites(d, e, ws, k - 1, b); }
  }
}
