/**
  The log (kernel/log.c) over the buffer cache: log_write() pins the buffers of a transaction,
  commit() writes and unpins them. What reads return is at all times the disk overlaid with the
  pinned blocks, and the block writes are exactly those of the crash-safety proof.
*/
module LogCache {
  import B = Bcache
  import F = FsDisk
  import opened CrashLog
  import opened Param

  // ----- a device as a sequence of blocks -----

  function View(m: map<B.Key, Block>, dev: nat, n: nat): (d: Disk)
    requires forall b: nat :: b < n ==> (dev, b) in m
    ensures |d| == n && forall b: nat :: b < n ==> d[b] == m[(dev, b)]
  {
    if n == 0 then [] else View(m, dev, n - 1) + [m[(dev, n - 1)]]
  }

  lemma ViewSet(m: map<B.Key, Block>, dev: nat, n: nat, b: nat, x: Block)
    requires b < n && forall k: nat :: k < n ==> (dev, k) in m
    ensures View(m[(dev, b) := x], dev, n) == View(m, dev, n)[b := x]
  {
  }

  // ----- the discipline -----

  /**
    Blocks whose buffers are pinned, blocks changed by a client that has neither logged nor written
    them yet, how many clients hold each buffer, and the block writes so far.
  */
  datatype Use = Use(pins: set<nat>, open: set<nat>, hold: seq<nat>, trace: seq<Write>)

  predicate Pinned(u: Use, dev: nat, key: B.Key) { key.0 == dev && key.1 in u.pins }

  /** The references to a buffer are its holders and the pin of the log. */
  ghost predicate RefsOk(c: B.Cache, dev: nat, u: Use, i: nat)
    requires i < |c.bufs| && i < |u.hold|
  {
    c.bufs[i].refcnt == u.hold[i] + if Pinned(u, dev, c.bufs[i].key) then 1 else 0
  }

  ghost predicate PinOk(c: B.Cache, dev: nat, n: nat, p: nat) {
    p < n && (dev, p) in c.at && c.at[(dev, p)] < |c.bufs| && c.bufs[c.at[(dev, p)]].valid
  }

  /** Only pinned and open blocks differ from the disk. */
  ghost predicate Overlay(c: B.Cache, dev: nat, u: Use, k: B.Key) {
    k in c.disk && k in c.seen && !(k.0 == dev && (k.1 in u.pins || k.1 in u.open)) ==> c.seen[k] == c.disk[k]
  }

  ghost predicate Sound(c: B.Cache, dev: nat, n: nat, u: Use) {
    && B.CacheOk(c) && c.loose == {} && dev != 0 && |u.hold| == B.NBUF
    && (forall b: nat :: b < n ==> (dev, b) in c.disk)
    && (forall i: nat {:trigger RefsOk(c, dev, u, i)} :: i < B.NBUF ==> RefsOk(c, dev, u, i))
    && (forall p {:trigger PinOk(c, dev, n, p)} :: p in u.pins ==> PinOk(c, dev, n, p))
    && (forall p :: p in u.open ==> p < n)
    && (forall k {:trigger Overlay(c, dev, u, k)} :: Overlay(c, dev, u, k))
  }

  ghost function Mach(c: B.Cache, dev: nat, n: nat, u: Use): (m: Machine)
    requires Sound(c, dev, n, u)
    ensures |m.disk| == |m.mem| == n && |u.hold| == B.NBUF
  {
    Machine(View(c.disk, dev, n), View(c.seen, dev, n), u.trace)
  }

  /** Reads return the disk overlaid with the pinned and the open blocks. */
  lemma ReadsAreOverlay(c: B.Cache, dev: nat, n: nat, u: Use)
    requires Sound(c, dev, n, u)
    ensures var m := Mach(c, dev, n, u);
            |m.mem| == |m.disk| == n && forall b: nat :: b < n && b !in u.pins && b !in u.open ==> m.mem[b] == m.disk[b]
  {
    var m := Mach(c, dev, n, u);
    forall b: nat | b < n && b !in u.pins && b !in u.open ensures m.mem[b] == m.disk[b] {
      assert Overlay(c, dev, u, (dev, b));
    }
  }

  /** A buffer that differs from the disk is pinned or open, so its last reference is never dropped. */
  lemma DirtyIsKept(c: B.Cache, dev: nat, n: nat, u: Use, i: nat)
    requires Sound(c, dev, n, u) && i < B.NBUF && c.bufs[i].key.0 != 0 && !B.Clean(c, i)
    ensures c.bufs[i].key.0 == dev && (c.bufs[i].key.1 in u.pins || c.bufs[i].key.1 in u.open) && c.bufs[i].refcnt > 0
  {
    B.DirtyInUse(c, i);
    assert B.BufOk(c, i) && Overlay(c, dev, u, c.bufs[i].key);
  }

  /** A valid buffer holds what reads return. */
  lemma BufferIs(c: B.Cache, dev: nat, n: nat, u: Use, i: nat, b: nat)
    requires Sound(c, dev, n, u) && i < B.NBUF && i < |c.bufs| && c.bufs[i].valid && c.bufs[i].key == (dev, b) && b < n
    ensures c.bufs[i].data == Mach(c, dev, n, u).mem[b]
  {
    assert B.BufOk(c, i);
  }

  // ----- the steps -----

  /** bread() by a client. */
  lemma ReadKeeps(c: B.Cache, dev: nat, n: nat, u: Use, d: B.Cache, i: nat, key: B.Key)
    requires Sound(c, dev, n, u) && B.CacheOk(d) && d.disk == c.disk && d.seen == c.seen && d.loose == c.loose
    requires i < B.NBUF && d.bufs[i].key == key && d.bufs[i].valid && key.0 != 0
    requires d.bufs[i].refcnt == 1 + (if key in c.at then c.bufs[i].refcnt else 0)
    requires if key in c.at then i == c.at[key] else c.bufs[i].refcnt == 0
    requires forall j :: 0 <= j < B.NBUF && j != i ==> d.bufs[j] == c.bufs[j]
    ensures Sound(d, dev, n, u.(hold := u.hold[i := u.hold[i] + 1]))
  {
    var v := u.(hold := u.hold[i := u.hold[i] + 1]);
    assert RefsOk(c, dev, u, i);
    assert Pinned(u, dev, key) ==> PinOk(c, dev, n, key.1);
    forall j: nat | j < B.NBUF ensures RefsOk(d, dev, v, j) { assert RefsOk(c, dev, u, j); }
    forall p | p in v.pins ensures PinOk(d, dev, n, p) {
      assert PinOk(c, dev, n, p);
      var j := c.at[(dev, p)];
      assert B.BufOk(d, j) && RefsOk(c, dev, u, j);
      if j == i { assert B.BufOk(d, i); }
    }
    forall k ensures Overlay(d, dev, v, k) { assert Overlay(c, dev, u, k); }
  }

  /** A client changes a buffer it holds. */
  lemma ChangeKeeps(c: B.Cache, dev: nat, n: nat, u: Use, i: nat, x: Block)
    requires Sound(c, dev, n, u) && i < B.NBUF && u.hold[i] > 0 && c.bufs[i].valid && c.bufs[i].key.0 == dev && c.bufs[i].key.1 < n
    ensures c.bufs[i].refcnt > 0
    ensures var key := c.bufs[i].key;
            var d := B.SetBuf(c, i, c.bufs[i].(data := x)).(seen := c.seen[key := x]);
            var v := u.(open := u.open + {key.1});
            Sound(d, dev, n, v) && Mach(d, dev, n, v) == Mach(c, dev, n, u).(mem := Mach(c, dev, n, u).mem[key.1 := x])
  {
    var key := c.bufs[i].key;
    var d := B.SetBuf(c, i, c.bufs[i].(data := x)).(seen := c.seen[key := x]);
    var v := u.(open := u.open + {key.1});
    assert RefsOk(c, dev, u, i);
    B.ModifyOk(c, i, x);
    assert B.BufOk(c, i);
    forall j: nat | j < B.NBUF ensures RefsOk(d, dev, v, j) { assert RefsOk(c, dev, u, j); }
    forall p | p in v.pins ensures PinOk(d, dev, n, p) { assert PinOk(c, dev, n, p); }
    forall k ensures Overlay(d, dev, v, k) { assert Overlay(c, dev, u, k); }
    ViewSet(c.seen, dev, n, key.1, x);
  }

  /** bwrite() of a buffer: its block is like the disk again. */
  lemma StoreKeeps(c: B.Cache, dev: nat, n: nat, u: Use, i: nat)
    requires Sound(c, dev, n, u) && i < B.NBUF && c.bufs[i].valid && c.bufs[i].key.0 == dev && c.bufs[i].key.1 < n
    ensures var key, x := c.bufs[i].key, c.bufs[i].data;
            var d := c.(disk := c.disk[key := x]);
            var v := u.(open := u.open - {key.1}, trace := u.trace + [Write(key.1, x)]);
            && Sound(d, dev, n, v)
            && Mach(d, dev, n, v) == Machine(Mach(c, dev, n, u).disk[key.1 := x], Mach(c, dev, n, u).mem, v.trace)
            && Mach(c, dev, n, u).mem[key.1] == x
  {
    var key, x := c.bufs[i].key, c.bufs[i].data;
    var d := c.(disk := c.disk[key := x]);
    var v := u.(open := u.open - {key.1}, trace := u.trace + [Write(key.1, x)]);
    B.WriteOk(c, i);
    assert B.BufOk(c, i);
    forall j: nat | j < B.NBUF ensures RefsOk(d, dev, v, j) { assert RefsOk(c, dev, u, j); }
    forall p | p in v.pins ensures PinOk(d, dev, n, p) { assert PinOk(c, dev, n, p); }
    forall k ensures Overlay(d, dev, v, k) { assert Overlay(c, dev, u, k); }
    ViewSet(c.disk, dev, n, key.1, x);
  }

  /** brelse() by a client that has logged or written its changes. */
  lemma ReleaseKeeps(c: B.Cache, dev: nat, n: nat, u: Use, i: nat)
    requires Sound(c, dev, n, u) && i < B.NBUF && u.hold[i] > 0 && c.bufs[i].key.0 != 0
    requires !(c.bufs[i].key.0 == dev && c.bufs[i].key.1 in u.open)
    ensures c.bufs[i].refcnt > 0
    ensures var v := u.(hold := u.hold[i := u.hold[i] - 1]);
            Sound(B.Dropped(c, i), dev, n, v) && Mach(B.Dropped(c, i), dev, n, v) == Mach(c, dev, n, u)
  {
    var v := u.(hold := u.hold[i := u.hold[i] - 1]);
    assert RefsOk(c, dev, u, i);
    var d := B.Dropped(c, i);
    B.DropOk(c, i);
    if !B.Clean(c, i) { DirtyIsKept(c, dev, n, u, i); }
    forall j: nat | j < B.NBUF ensures RefsOk(d, dev, v, j) { assert RefsOk(c, dev, u, j); }
    forall p | p in v.pins ensures PinOk(d, dev, n, p) { assert PinOk(c, dev, n, p); }
    forall k ensures Overlay(d, dev, v, k) { assert Overlay(c, dev, u, k); }
  }

  /** bpin() of a held buffer that is not pinned: its block counts as logged from now on. */
  lemma PinKeeps(c: B.Cache, dev: nat, n: nat, u: Use, i: nat)
    requires Sound(c, dev, n, u) && i < B.NBUF && c.bufs[i].valid && c.bufs[i].key.0 == dev && c.bufs[i].key.1 < n
    requires c.bufs[i].key.1 !in u.pins
    ensures var d := B.SetBuf(c, i, c.bufs[i].(refcnt := c.bufs[i].refcnt + 1));
            var v := u.(pins := u.pins + {c.bufs[i].key.1}, open := u.open - {c.bufs[i].key.1});
            Sound(d, dev, n, v) && Mach(d, dev, n, v) == Mach(c, dev, n, u)
  {
    var b := c.bufs[i].key.1;
    var d := B.SetBuf(c, i, c.bufs[i].(refcnt := c.bufs[i].refcnt + 1));
    var v := u.(pins := u.pins + {b}, open := u.open - {b});
    B.HitOk(c, i);
    forall j: nat | j < B.NBUF ensures RefsOk(d, dev, v, j) {
      assert RefsOk(c, dev, u, j);
      if j != i && c.bufs[j].key == c.bufs[i].key { B.OneBuffer(c, i, j); }
    }
    forall p | p in v.pins ensures PinOk(d, dev, n, p) {
      if p != b { assert PinOk(c, dev, n, p); }
      assert B.BufOk(c, i);
    }
    forall k ensures Overlay(d, dev, v, k) { assert Overlay(c, dev, u, k); }
  }

  /** A block in the log already is not open once it is logged again. */
  lemma AbsorbKeeps(c: B.Cache, dev: nat, n: nat, u: Use, b: nat)
    requires Sound(c, dev, n, u) && b in u.pins
    ensures var v := u.(open := u.open - {b}); Sound(c, dev, n, v) && Mach(c, dev, n, v) == Mach(c, dev, n, u)
  {
    var v := u.(open := u.open - {b});
    forall j: nat | j < B.NBUF ensures RefsOk(c, dev, v, j) { assert RefsOk(c, dev, u, j); }
    forall k ensures Overlay(c, dev, v, k) { assert Overlay(c, dev, u, k); }
  }

  /** bunpin() of a held buffer that agrees with the disk. */
  lemma UnpinKeeps(c: B.Cache, dev: nat, n: nat, u: Use, i: nat)
    requires Sound(c, dev, n, u) && i < B.NBUF && u.hold[i] > 0 && c.bufs[i].valid && B.Clean(c, i)
    requires c.bufs[i].key.0 == dev && c.bufs[i].key.1 in u.pins
    ensures c.bufs[i].refcnt > 0
    ensures var v := u.(pins := u.pins - {c.bufs[i].key.1});
            Sound(B.Dropped(c, i), dev, n, v) && Mach(B.Dropped(c, i), dev, n, v) == Mach(c, dev, n, u)
  {
    var b := c.bufs[i].key.1;
    var v := u.(pins := u.pins - {b});
    assert RefsOk(c, dev, u, i) && PinOk(c, dev, n, b);
    var d := B.Dropped(c, i);
    B.DropOk(c, i);
    assert B.BufOk(c, i);
    forall j: nat | j < B.NBUF ensures RefsOk(d, dev, v, j) {
      assert RefsOk(c, dev, u, j);
      if j != i && c.bufs[j].key == c.bufs[i].key { B.OneBuffer(c, i, j); }
    }
    forall p | p in v.pins ensures PinOk(d, dev, n, p) { assert PinOk(c, dev, n, p); }
    forall k ensures Overlay(d, dev, v, k) { assert Overlay(c, dev, u, k); }
  }

  // ----- running out of buffers -----

  predicate Idle(hold: seq<nat>) { forall i :: 0 <= i < |hold| ==> hold[i] == 0 }

  /** The pinned blocks among the first k buffers. */
  ghost function PinsBelow(c: B.Cache, dev: nat, u: Use, k: nat): (s: set<nat>)
    requires k <= |c.bufs|
  {
    if k == 0 then {}
    else PinsBelow(c, dev, u, k - 1) + if Pinned(u, dev, c.bufs[k - 1].key) then {c.bufs[k - 1].key.1} else {}
  }

  lemma {:induction false} PinsBelowAre(c: B.Cache, dev: nat, n: nat, u: Use, k: nat)
    requires Sound(c, dev, n, u) && k <= B.NBUF
    ensures forall p :: p in PinsBelow(c, dev, u, k) <==> p in u.pins && (dev, p) in c.at && c.at[(dev, p)] < k
  {
    if k > 0 {
      PinsBelowAre(c, dev, n, u, k - 1);
      var key := c.bufs[k - 1].key;
      assert B.BufOk(c, k - 1);
      assert Pinned(u, dev, key) ==> PinOk(c, dev, n, key.1);
    }
  }

  lemma NewPin(c: B.Cache, dev: nat, n: nat, u: Use, k: nat)
    requires Sound(c, dev, n, u) && k < B.NBUF
    ensures Pinned(u, dev, c.bufs[k].key) ==> c.bufs[k].key.1 !in PinsBelow(c, dev, u, k)
  {
    PinsBelowAre(c, dev, n, u, k);
    assert B.BufOk(c, k);
  }

  lemma {:induction false} PinsBelowCount(c: B.Cache, dev: nat, n: nat, u: Use, k: nat)
    requires Sound(c, dev, n, u) && k <= B.NBUF
    ensures |PinsBelow(c, dev, u, k)| <= k
    ensures (forall i :: 0 <= i < k ==> Pinned(u, dev, c.bufs[i].key)) <==> |PinsBelow(c, dev, u, k)| == k
  {
    if k > 0 {
      PinsBelowCount(c, dev, n, u, k - 1);
      NewPin(c, dev, n, u, k - 1);
      hide Sound, B.CacheOk, Pinned;
    }
  }

  /** There are at most as many pinned blocks as buffers, and if all buffers are pinned exactly as many. */
  lemma PinsFill(c: B.Cache, dev: nat, n: nat, u: Use)
    requires Sound(c, dev, n, u)
    ensures |u.pins| <= B.NBUF
    ensures |u.pins| == B.NBUF <==> forall i :: 0 <= i < B.NBUF ==> Pinned(u, dev, c.bufs[i].key)
  {
    PinsBelowAre(c, dev, n, u, B.NBUF);
    PinsBelowCount(c, dev, n, u, B.NBUF);
    forall p | p in u.pins ensures p in PinsBelow(c, dev, u, B.NBUF) { assert PinOk(c, dev, n, p); }
    assert PinsBelow(c, dev, u, B.NBUF) == u.pins;
  }

  /** When no client holds a buffer, all buffers are in use exactly if all are pinned. */
  lemma AllBusy(c: B.Cache, dev: nat, n: nat, u: Use)
    requires Sound(c, dev, n, u) && Idle(u.hold)
    ensures (forall i :: 0 <= i < B.NBUF ==> c.bufs[i].refcnt > 0) <==> |u.pins| == B.NBUF
  {
    PinsFill(c, dev, n, u);
    forall i: nat | i < B.NBUF ensures c.bufs[i].refcnt > 0 <==> Pinned(u, dev, c.bufs[i].key) { assert RefsOk(c, dev, u, i); }
  }

  // ----- the code -----

  ghost function SetOf(bs: seq<nat>): set<nat> { set b | b in bs }

  /** The buffers after binit(): all are for block 0 of device 0, which does not exist. */
  ghost predicate Unused(c: B.Cache) {
    && B.CacheOk(c) && c.seen == c.disk && c.at == map[] && c.loose == {}
    && forall i :: 0 <= i < |c.bufs| ==> c.bufs[i].key == (0, 0) && c.bufs[i].refcnt == 0
  }

  function NoUse(): Use { Use({}, {}, seq(B.NBUF, _ => 0), []) }

  lemma UnusedSound(c: B.Cache, dev: nat, n: nat)
    requires Unused(c) && dev != 0 && forall b: nat :: b < n ==> (dev, b) in c.disk
    ensures Sound(c, dev, n, NoUse())
  {
    var u := NoUse();
    forall i: nat | i < B.NBUF ensures RefsOk(c, dev, u, i) {}
    forall k ensures Overlay(c, dev, u, k) {}
  }

  class Log {
    const l: Layout
    const dev: nat
    const n: nat                    // blocks of the device
    const bio: B.Bio
    var lh: seq<nat>                // lh.block[0..lh.n]
    ghost var u: Use

    /** The log over the buffers that binit() leaves: nothing cached, nothing logged. */
    constructor (l: Layout, dev: nat, n: nat, bio: B.Bio)
      requires bio.Ok() && Unused(bio.c) && dev != 0 && (forall b: nat :: b < n ==> (dev, b) in bio.c.disk)
      ensures this.l == l && this.dev == dev && this.n == n && this.bio == bio && lh == [] && Ok()
      ensures u == NoUse() && M() == Machine(View(bio.c.disk, dev, n), View(bio.c.disk, dev, n), [])
    {
      this.l, this.dev, this.n, this.bio, lh, u := l, dev, n, bio, [], NoUse();
      UnusedSound(bio.c, dev, n);
    }

    ghost predicate Ok() reads this, bio { bio.Ok() && Sound(bio.c, dev, n, u) }

    ghost function M(): Machine
      requires Ok()
      reads this, bio
    {
      Mach(bio.c, dev, n, u)
    }

    /** Between operations: the log names the pinned blocks, and no change is neither logged nor written. */
    ghost predicate Valid() reads this, bio {
      Ok() && LayoutOk(l, M().disk) && TxOk(l, M().disk, lh) && u.pins == SetOf(lh) && u.open == {}
    }

    /** bread() by a client: the contents are those that reads return. It fails only without a free buffer. */
    method Bread(b: nat) returns (ok: bool, i: nat)
      requires Ok() && b < n
      modifies this`u, bio
      ensures Ok() && M() == old(M())
      ensures ok ==> Holds(i, b) && bio.c.bufs[i].data == M().mem[b]
      ensures ok ==> i < |old(u).hold| && u == old(u).(hold := old(u).hold[i := old(u).hold[i] + 1])
      ensures forall j: nat, k: nat :: old(Holds(j, k)) ==> Holds(j, k)
      ensures !ok ==> u == old(u) && bio.c == old(bio.c) && b !in u.pins
      ensures ok <==> (dev, b) in old(bio.c).at || !B.AllReferenced(old(bio.c))
    {
      ghost var c := bio.c;
      ok, i := bio.Bread((dev, b));
      if ok {
        forall j: nat, k: nat | old(Holds(j, k)) ensures j == i ==> k == b { assert RefsOk(c, dev, u, i) && B.BufOk(c, i); }
        ReadKeeps(c, dev, n, u, bio.c, i, (dev, b));
        u := u.(hold := u.hold[i := u.hold[i] + 1]);
      } else {
        assert b in u.pins ==> PinOk(c, dev, n, b);
      }
    }

    /** A client holds buffer i, which is for block b. */
    ghost predicate Holds(i: nat, b: nat) reads this, bio {
      && i < B.NBUF && |bio.c.bufs| == B.NBUF && |u.hold| == B.NBUF && u.hold[i] > 0 && b < n
      && bio.c.bufs[i].valid && bio.c.bufs[i].key == (dev, b)
    }

    /** A client changes the contents of a buffer it holds. */
    method Change(i: nat, b: nat, x: Block)
      requires Ok() && Holds(i, b)
      modifies this`u, bio
      ensures Ok() && Holds(i, b) && M() == old(M()).(mem := old(M()).mem[b := x])
      ensures u == old(u).(open := old(u).open + {b}) && SameKeys(old(bio.c), bio.c) && bio.c.bufs[i].data == x
    {
      ChangeKeeps(bio.c, dev, n, u, i, x);
      bio.Modify(i, x);
      u := u.(open := u.open + {b});
    }

    /** bwrite() */
    method Bwrite(i: nat, b: nat)
      requires Ok() && Holds(i, b)
      modifies this`u, bio
      ensures Ok() && Holds(i, b) && old(M()).mem[b] == old(bio.c).bufs[i].data
      ensures M() == Machine(old(M()).disk[b := old(M()).mem[b]], old(M()).mem, old(M()).trace + [Write(b, old(M()).mem[b])])
      ensures u == old(u).(open := old(u).open - {b}, trace := u.trace) && bio.c.bufs == old(bio.c).bufs && B.Clean(bio.c, i)
      ensures SameKeys(old(bio.c), bio.c)
    {
      StoreKeeps(bio.c, dev, n, u, i);
      u := u.(open := u.open - {b}, trace := u.trace + [Write(b, bio.c.bufs[i].data)]);
      bio.Bwrite(i);
    }

    /** Copy x to a held buffer and write it to the disk. */
    method Store(i: nat, b: nat, x: Block)
      requires Ok() && Holds(i, b) && b !in u.open
      modifies this`u, bio
      ensures Ok() && Holds(i, b)
      ensures M() == Machine(old(M()).disk[b := x], old(M()).mem[b := x], old(M()).trace + [Write(b, x)])
      ensures u == old(u).(trace := u.trace) && SameKeys(old(bio.c), bio.c) && B.Clean(bio.c, i)
    {
      hide *;
      ghost var u0, c0 := u, bio.c;
      Change(i, b, x);
      ghost var c1 := bio.c;
      Bwrite(i, b);
      SameKeysTwice(c0, c1, bio.c);
      assert u0.open + {b} - {b} == u0.open;
    }

    /** brelse() by a client that has logged or written what it changed. */
    method Brelse(i: nat, b: nat)
      requires Ok() && Holds(i, b) && b !in u.open
      modifies this`u, bio
      ensures Ok() && M() == old(M()) && u == old(u).(hold := old(u).hold[i := old(u).hold[i] - 1])
      ensures SameKeys(old(bio.c), bio.c)
    {
      ReleaseKeeps(bio.c, dev, n, u, i);
      bio.Brelse(i);
      u := u.(hold := u.hold[i := u.hold[i] - 1]);
    }

    /**
      log_write() of a buffer its client has changed. False is a panic: the log is full, which is
      decided before the block is looked for, or no operation is outstanding.
    */
    method LogWrite(i: nat, b: nat, outstanding: int) returns (ok: bool)
      requires Ok() && Holds(i, b) && u.pins == SetOf(lh) && LayoutOk(l, M().disk) && TxOk(l, M().disk, lh) && !InLog(l, b)
      modifies this, bio
      ensures Ok() && Holds(i, b) && u.pins == SetOf(lh) && M() == old(M()) && TxOk(l, M().disk, lh)
      ensures ok <==> |old(lh)| < LOGSIZE && |old(lh)| < l.size - 1 && outstanding >= 1
      ensures !ok ==> lh == old(lh) && u == old(u)
      ensures ok ==> lh == (if b in old(lh) then old(lh) else old(lh) + [b])
      ensures ok ==> u == old(u).(pins := SetOf(lh), open := old(u).open - {b})
    {
      if |lh| >= LOGSIZE || |lh| >= l.size - 1 || outstanding < 1 { return false; }
      var k := 0;
      while k < |lh| && lh[k] != b
        invariant 0 <= k <= |lh| && lh == old(lh) && u == old(u) && bio.c == old(bio.c) && bio.Ok()
        invariant b !in lh[..k]
      {
        k := k + 1;
      }
      if k == |lh| {
        assert lh[..k] == lh;
        PinKeeps(bio.c, dev, n, u, i);
        bio.Bpin(i);
        u := u.(pins := u.pins + {b}, open := u.open - {b});
        lh := lh + [b];
        assert SetOf(lh) == old(u).pins + {b};
      } else {
        AbsorbKeeps(bio.c, dev, n, u, b);
        u := u.(open := u.open - {b});
      }
      ok := true;
    }

    /** What a file system operation does to a block: bread, change, log_write, brelse. */
    method Update(b: nat, x: Block, outstanding: int) returns (ok: bool)
      requires Valid() && b < n && !InLog(l, b)
      modifies this, bio
      ensures ok ==> Valid() && M() == old(M()).(mem := old(M()).mem[b := x]) && u.hold == old(u).hold
      ensures ok ==> lh == if b in old(lh) then old(lh) else old(lh) + [b]
      ensures !ok ==> |old(lh)| >= LOGSIZE || |old(lh)| >= l.size - 1 || outstanding < 1 || B.AllReferenced(old(bio.c))
    {
      hide Sound, Mach, B.CacheOk, B.Ring, B.All;
      ghost var u0 := u;
      var i;
      ok, i := Bread(b);
      if !ok { return; }
      Change(i, b, x);
      ok := LogWrite(i, b, outstanding);
      if !ok { return; }
      assert u.open == {};
      Brelse(i, b);
      assert u.hold == u0.hold;
    }

    /** bunpin() of a held buffer that has been written to the disk. */
    method Bunpin(i: nat, b: nat)
      requires Ok() && Holds(i, b) && B.Clean(bio.c, i) && b in u.pins
      modifies this`u, bio
      ensures Ok() && Holds(i, b) && M() == old(M()) && u == old(u).(pins := old(u).pins - {b})
      ensures SameKeys(old(bio.c), bio.c)
    {
      UnpinKeeps(bio.c, dev, n, u, i);
      bio.Bunpin(i);
      u := u.(pins := u.pins - {b});
    }

    /** Nobody holds a buffer, and the log does not pin them all. */
    ghost predicate Room() reads this { Idle(u.hold) && |u.pins| < B.NBUF }

    /** One round of write_log(): the pinned block src goes to the log block dst. */
    method ToSlot(src: nat, dst: nat) returns (ok: bool)
      requires Ok() && src < n && dst < n && src != dst && src in u.pins && dst !in u.open && src !in u.open
      modifies this`u, bio
      ensures ok ==> Ok() && u == old(u).(trace := u.trace) && Moved(old(M()), M(), src, dst)
      ensures ok <==> (dev, dst) in old(bio.c).at || !B.AllReferenced(old(bio.c))
      ensures old(Room()) ==> ok
    {
      hide Sound, Mach, B.CacheOk, B.Ring, B.All, B.Clean;
      ghost var u0 := u;
      var to, from;
      ok, to := Bread(dst);
      if !ok {
        if Idle(u.hold) { AllBusy(bio.c, dev, n, u); }
        return;
      }
      ok, from := Bread(src);
      Store(to, dst, bio.c.bufs[from].data);
      Brelse(from, src);
      Brelse(to, dst);
      assert u.hold == u0.hold;
    }

    /** One round of install_trans(): the log block src goes to its home dst, which is no longer pinned. */
    method ToHome(src: nat, dst: nat, recovering: bool) returns (ok: bool)
      requires Ok() && src < n && dst < n && src != dst && dst !in u.open && src !in u.open
      requires if recovering then u.pins == {} else dst in u.pins
      modifies this`u, bio
      ensures ok ==> Ok() && u == old(u).(trace := u.trace, pins := old(u).pins - {dst}) && Moved(old(M()), M(), src, dst)
      ensures old(Room()) ==> ok
    {
      hide Sound, Mach, B.CacheOk, B.Ring, B.All, B.Clean;
      ghost var u0 := u;
      var lbuf, dbuf;
      ok, lbuf := Bread(src);
      if !ok {
        if Idle(u.hold) { AllBusy(bio.c, dev, n, u); }
        return;
      }
      ok, dbuf := Bread(dst);
      if !ok {
        if Idle(u0.hold) { OneHeld(bio.c, dev, n, u, lbuf); }
        return;
      }
      BufferIs(bio.c, dev, n, u, lbuf, src);
      Store(dbuf, dst, bio.c.bufs[lbuf].data);
      if !recovering { Bunpin(dbuf, dst); }
      Brelse(lbuf, src);
      Brelse(dbuf, dst);
      assert u.hold == u0.hold;
      assert u.pins == u0.pins - {dst};
    }

    /** write_head(): the numbers of the logged blocks go to the header. */
    method WriteHead() returns (ok: bool)
      requires Ok() && LayoutOk(l, M().disk) && Encodable(lh) && u.open == {}
      modifies this`u, bio
      ensures ok ==> Ok() && u == old(u).(trace := u.trace)
      ensures ok ==> Issued(old(M()), M(), [Write(l.start, Encode(old(M()).mem[l.start], lh))])
      ensures old(Room()) ==> ok
    {
      hide Sound, Mach, B.CacheOk, B.Ring, B.All, B.Clean;
      ghost var u0, m0 := u, M();
      var i;
      ok, i := Bread(l.start);
      if !ok {
        if Idle(u.hold) { AllBusy(bio.c, dev, n, u); }
        return;
      }
      var h := Header(bio.c.bufs[i].data);
      ApplySingle(m0.disk, Write(l.start, h));
      ApplySingle(m0.mem, Write(l.start, h));
      Store(i, l.start, h);
      Brelse(i, l.start);
      assert u.hold == u0.hold;
    }

    /**
      write_log(): the logged blocks go to the log, in order. If no client holds a buffer, it runs
      out of buffers exactly when the log pins them all.
    */
    method WriteLog() returns (ok: bool)
      requires Valid()
      modifies this`u, bio
      ensures ok ==> Ok() && u == old(u).(trace := u.trace)
      ensures ok ==> Issued(old(M()), M(), SlotWrites(l, Values(old(M()).mem, lh)))
      ensures old(Room()) ==> ok
      ensures lh != [] && |old(u).pins| == B.NBUF ==> !ok
    {
      hide Sound, Mach, B.CacheOk, B.Ring, B.All, Issuing, Issued, Moved, SlotWrites, Values;
      ghost var u0, m0 := u, M();
      ghost var ws := SlotWrites(l, Values(m0.mem, lh));
      NoneIssued(m0, ws);
      if lh != [] && |u.pins| == B.NBUF {
        assert InLog(l, l.start + 1);
        AllPinned(bio.c, dev, n, u, l.start + 1);
      }
      var tail := 0;
      while tail < |lh|
        invariant 0 <= tail <= |lh| && Ok() && u == u0.(trace := u.trace) && Issuing(m0, M(), ws, tail)
        invariant |u0.pins| == B.NBUF ==> tail == 0 && (lh != [] ==> (dev, l.start + 1) !in bio.c.at && B.AllReferenced(bio.c))
      {
        ghost var m := M();
        ok := ToSlot(lh[tail], l.start + tail + 1);
        if !ok { return; }
        SlotRound(l, m0, m, M(), lh, tail);
        tail := tail + 1;
      }
      AllIssued(m0, M(), ws);
      ok := true;
    }

    /** install_trans(): the log slots go home, in order, and their buffers are unpinned. */
    method InstallTrans(recovering: bool) returns (ok: bool)
      requires Ok() && LayoutOk(l, M().disk) && TxOk(l, M().disk, lh) && u.open == {}
      requires u.pins == if recovering then {} else SetOf(lh)
      modifies this`u, bio
      ensures ok ==> Ok() && u == old(u).(trace := u.trace, pins := {})
      ensures ok ==> Issued(old(M()), M(), HomeWrites(lh, Slots(l, old(M()).mem, |lh|)))
      ensures old(Room()) ==> ok
    {
      hide Sound, Mach, B.CacheOk, B.Ring, B.All, Issuing, Issued, Moved, HomeWrites, Slots;
      ghost var u0, m0 := u, M();
      ghost var ws := HomeWrites(lh, Slots(l, m0.mem, |lh|));
      NoneIssued(m0, ws);
      assert lh[0..] == lh;
      var tail := 0;
      while tail < |lh|
        invariant 0 <= tail <= |lh| && Ok() && u == u0.(trace := u.trace, pins := u.pins) && Issuing(m0, M(), ws, tail)
        invariant u.pins == (if recovering then {} else SetOf(lh[tail..])) && u.pins <= u0.pins
      {
        ghost var m := M();
        PinsNext(lh, tail);
        Fewer(u.pins, u0.pins);
        ok := ToHome(l.start + tail + 1, lh[tail], recovering);
        if !ok { return; }
        HomeRound(l, m0, m, M(), lh, tail);
        tail := tail + 1;
      }
      AllIssued(m0, M(), ws);
      ok := true;
    }

    /** read_head() */
    method ReadHead() returns (ok: bool)
      requires Ok() && lh == [] && u.open == {} && LayoutOk(l, M().disk) && HeaderOk(l, M().mem)
      modifies this, bio
      ensures ok ==> Ok() && u == old(u) && M() == old(M()) && lh == Logged(l, M().mem)
      ensures old(Room()) ==> ok
    {
      hide Sound, Mach, B.CacheOk, B.Ring, B.All;
      ghost var u0 := u;
      var b;
      ok, b := Bread(l.start);
      if !ok {
        if Idle(u.hold) { AllBusy(bio.c, dev, n, u); }
        return;
      }
      var h := bio.c.bufs[b].data;
      var i, k := 0, Num(h);
      ghost var c := bio.c;
      while i < k
        invariant 0 <= i <= k && k == Num(h) <= LOGSIZE && lh == Nums(h, i) && bio.c == c && u == u0.(hold := u.hold)
        invariant Ok() && Holds(b, l.start) && M() == old(M()) && u.hold == u0.hold[b := u0.hold[b] + 1]
      {
        lh := lh + [F.Entry(h, i + 1)];
        i := i + 1;
      }
      Brelse(b, l.start);
      assert u.hold == u0.hold;
    }

    /** Recovery at boot issues exactly the recovery writes of the disk it finds, and never runs out of buffers. */
    method RecoverFromLog() returns (ok: bool)
      requires Ok() && lh == [] && u.open == {} && u.pins == {} && HeaderOk(l, M().disk)
      modifies this, bio
      ensures ok ==> Valid() && lh == [] && u.hold == old(u).hold
      ensures ok ==> Issued(old(M()), M(), RecoveryWrites(l, old(M()).disk)) && M().disk == Recover(l, old(M()).disk)
      ensures Idle(old(u).hold) ==> ok
    {
      hide Sound, Mach, B.CacheOk, B.Ring, B.All, Issued, RecoveryWrites, HeaderOk;
      ghost var m0 := M();
      SameView(bio.c, dev, n, u);
      HeaderParts(l, m0.disk);
      ok := ReadHead();
      if !ok { return; }
      ok := InstallTrans(true);
      if !ok { return; }
      ghost var m1 := M();
      lh := [];
      IssuedLength(m0, m1, HomeWrites(Logged(l, m0.disk), Slots(l, m0.mem, |Logged(l, m0.disk)|)));
      ok := WriteHead();
      if !ok { return; }
      RecoveryStages(l, m0, m1, M());
      RecoveryResult(l, m0, M());
    }

    /**
      commit() issues exactly the commit writes of the logged blocks and their cached contents;
      afterwards every home block on the disk is what a read returned before, and nothing is pinned.
      If no client holds a buffer, it runs out of buffers exactly when the log pins them all.
    */
    method Commit() returns (ok: bool)
      requires Valid() && Num(M().disk[l.start]) == 0
      modifies this, bio
      ensures ok ==> Valid() && lh == [] && u.hold == old(u).hold && u.pins == {} && Num(M().disk[l.start]) == 0
      ensures ok ==> Issued(old(M()), M(), CommitWrites(l, old(M()).disk, old(lh), Values(old(M()).mem, old(lh))))
      ensures ok ==> AgreeOffLog(l, M().disk, old(M()).mem)
      ensures Idle(old(u).hold) ==> (ok <==> |old(u).pins| < B.NBUF)
    {
      hide Sound, Mach, B.CacheOk, B.Ring, B.All, Issued, CommitWrites, TxOk, LayoutOk, Encodable;
      ghost var m0, bs := M(), lh;
      PinsFill(bio.c, dev, n, u);
      CoherentNow(bio.c, dev, n, u, bs);
      if |lh| > 0 {
        ok := Stages();
        if !ok { return; }
      } else {
        ok := true;
        NothingIssued(l, m0);
      }
      CommitResult(l, m0, M(), bs);
      NoBlocks(l, m0.disk, M().disk, bs);
    }

    /** The four calls of commit(). */
    method Stages() returns (ok: bool)
      requires Valid() && lh != []
      modifies this, bio
      ensures ok ==> Ok() && lh == [] && u == old(u).(trace := u.trace, pins := {})
      ensures ok ==> Issued(old(M()), M(), CommitWrites(l, old(M()).disk, old(lh), Values(old(M()).mem, old(lh))))
      ensures old(Room()) ==> ok
      ensures |old(u).pins| == B.NBUF ==> !ok
    {
      hide Sound, Mach, B.CacheOk, B.Ring, B.All, Issued, CommitWrites, TxOk, LayoutOk, Encodable;
      ghost var m0, bs := M(), lh;
      CoherentNow(bio.c, dev, n, u, bs);
      NoBlocks(l, m0.disk, m0.disk, bs);
      ok := WriteLog();
      if !ok { return; }
      ghost var m1 := M();
      NoBlocks(l, m0.disk, m1.disk, bs);
      ok := WriteHead();
      if !ok { return; }
      ghost var m2 := M();
      NoBlocks(l, m0.disk, m2.disk, bs);
      ok := InstallTrans(false);
      if !ok { return; }
      ghost var m3 := M();
      NoBlocks(l, m0.disk, m3.disk, bs);
      lh := [];
      Fewer({}, u.pins);
      ok := WriteHead();
      if !ok { return; }
      CommitStages(l, bs, m0, m1, m2, m3, M());
    }

    /** The stores of write_head() into the header buffer. */
    method Header(data: Block) returns (h: Block)
      requires Encodable(lh)
      ensures h == Encode(data, lh)
    {
      h := F.PutEntry(data, 0, |lh|);
      var i := 0;
      while i < |lh|
        invariant 0 <= i <= |lh| && h == PutNums(F.PutEntry(data, 0, |lh|), lh[..i])
      {
        assert lh[..i + 1][..i] == lh[..i];
        h := F.PutEntry(h, i + 1, lh[i]);
        i := i + 1;
      }
      assert lh[..i] == lh;
    }
  }

  lemma NoneIssued(m: Machine, ws: seq<Write>)
    ensures Issuing(m, m, ws, 0)
  {
    assert m.trace + ws[..0] == m.trace;
  }

  lemma AllIssued(m0: Machine, m: Machine, ws: seq<Write>)
    requires Issuing(m0, m, ws, |ws|)
    ensures Issued(m0, m, ws)
  {
    assert ws[..|ws|] == ws;
  }

  lemma SlotRound(l: Layout, m0: Machine, m: Machine, n: Machine, bs: seq<nat>, t: nat)
    requires LayoutOk(l, m0.disk) && TxOk(l, m0.disk, bs) && |m0.mem| == |m0.disk| && t < |bs|
    requires Issuing(m0, m, SlotWrites(l, Values(m0.mem, bs)), t) && Moved(m, n, bs[t], l.start + t + 1)
    ensures Issuing(m0, n, SlotWrites(l, Values(m0.mem, bs)), t + 1)
  {
    hide SlotWrites, Values, Apply;
    var ws := SlotWrites(l, Values(m0.mem, bs));
    AfterFrame(m0.mem, ws, t, bs[t]);
    IssueNext(m0, m, ws, t);
  }

  lemma HomeRound(l: Layout, m0: Machine, m: Machine, n: Machine, bs: seq<nat>, t: nat)
    requires LayoutOk(l, m0.disk) && TxOk(l, m0.disk, bs) && |m0.mem| == |m0.disk| && t < |bs|
    requires Issuing(m0, m, HomeWrites(bs, Slots(l, m0.mem, |bs|)), t) && Moved(m, n, l.start + t + 1, bs[t])
    ensures Issuing(m0, n, HomeWrites(bs, Slots(l, m0.mem, |bs|)), t + 1)
  {
    hide HomeWrites, Slots, Apply, After, Issuing, Moved;
    var ws, src := HomeWrites(bs, Slots(l, m0.mem, |bs|)), l.start + t + 1;
    assert ws[t] == Write(bs[t], m0.mem[src]);
    AfterFrame(m0.mem, ws, t, src);
    IssuingMem(m0, m, ws, t);
    IssueNext(m0, m, ws, t);
    MovedIs(m, n, src, bs[t]);
  }

  lemma IssuingMem(m0: Machine, m: Machine, ws: seq<Write>, k: nat)
    requires Issuing(m0, m, ws, k)
    ensures k <= |ws| && m.mem == After(m0.mem, ws, k)
  {
  }

  lemma MovedIs(m: Machine, n: Machine, src: nat, dst: nat)
    requires Moved(m, n, src, dst)
    ensures src < |m.mem| && dst < |m.mem| && dst < |m.disk|
    ensures n == Machine(m.disk[dst := m.mem[src]], m.mem[dst := m.mem[src]], m.trace + [Write(dst, m.mem[src])])
  {
  }

  lemma PinsNext(bs: seq<nat>, t: nat)
    requires t < |bs| && forall i, j :: 0 <= i < j < |bs| ==> bs[i] != bs[j]
    ensures bs[t] in SetOf(bs[t..]) && SetOf(bs[t + 1..]) == SetOf(bs[t..]) - {bs[t]}
  {
    assert bs[t..] == [bs[t]] + bs[t + 1..];
  }

  lemma Fewer(s: set<nat>, t: set<nat>)
    requires s <= t
    ensures |s| <= |t|
  {
    if s != t {
      var x :| x in t && x !in s;
      assert |t - {x}| == |t| - 1 && s <= t - {x};
      Fewer(s, t - {x});
    }
  }

  lemma SameView(c: B.Cache, dev: nat, n: nat, u: Use)
    requires Sound(c, dev, n, u) && u.pins == {} && u.open == {}
    ensures Mach(c, dev, n, u).mem == Mach(c, dev, n, u).disk
  {
    ReadsAreOverlay(c, dev, n, u);
  }

  lemma CoherentNow(c: B.Cache, dev: nat, n: nat, u: Use, bs: seq<nat>)
    requires Sound(c, dev, n, u) && u.pins == SetOf(bs) && u.open == {}
    ensures Coherent(Mach(c, dev, n, u).disk, Mach(c, dev, n, u).mem, bs)
  {
    ReadsAreOverlay(c, dev, n, u);
  }

  lemma HeaderParts(l: Layout, d: Disk)
    requires HeaderOk(l, d)
    ensures LayoutOk(l, d) && TxOk(l, d, Logged(l, d)) && Encodable([])
  {
  }

  /** Whether a transaction is in order depends on the size of the disk only. */
  lemma NoBlocks(l: Layout, d: Disk, e: Disk, bs: seq<nat>)
    requires LayoutOk(l, d) && TxOk(l, d, bs) && |e| == |d|
    ensures LayoutOk(l, e) && TxOk(l, e, bs) && TxOk(l, e, []) && Encodable(bs) && Encodable([])
  {
  }

  lemma IssuedLength(m0: Machine, m: Machine, ws: seq<Write>)
    requires Issued(m0, m, ws)
    ensures |m.disk| == |m0.disk| && |m.mem| == |m0.mem|
  {
  }

  lemma RecoveryResult(l: Layout, m0: Machine, m: Machine)
    requires HeaderOk(l, m0.disk) && Issued(m0, m, RecoveryWrites(l, m0.disk))
    ensures m.disk == Recover(l, m0.disk) && LayoutOk(l, m.disk) && TxOk(l, m.disk, [])
  {
  }

  lemma NothingIssued(l: Layout, m: Machine)
    requires LayoutOk(l, m.disk) && TxOk(l, m.disk, [])
    ensures Issued(m, m, CommitWrites(l, m.disk, [], Values(m.mem, [])))
  {
    assert m.trace + [] == m.trace;
  }

  /** When all buffers are pinned no log block is cached. */
  lemma AllPinned(c: B.Cache, dev: nat, n: nat, u: Use, b: nat)
    requires Sound(c, dev, n, u) && |u.pins| == B.NBUF && b !in u.pins
    ensures (dev, b) !in c.at && B.AllReferenced(c)
  {
    PinsFill(c, dev, n, u);
    forall i: nat | i < B.NBUF ensures c.bufs[i].refcnt > 0 { assert RefsOk(c, dev, u, i); }
  }

  /** With one buffer held, all buffers are in use only if all the others are pinned. */
  lemma OneHeld(c: B.Cache, dev: nat, n: nat, u: Use, i: nat)
    requires Sound(c, dev, n, u) && i < B.NBUF && Idle(u.hold[i := 0]) && B.AllReferenced(c)
    ensures u.pins != {}
  {
    var j := if i == 0 then 1 else 0;
    assert RefsOk(c, dev, u, j) && u.hold[i := 0][j] == 0;
  }

  lemma SameKeysTwice(c: B.Cache, d: B.Cache, e: B.Cache)
    requires SameKeys(c, d) && SameKeys(d, e)
    ensures SameKeys(c, e)
  {
  }

  /** One block write, of the contents of another block. */
  ghost predicate Moved(m0: Machine, m: Machine, src: nat, dst: nat) {
    && src < |m0.mem| && dst < |m0.mem| && dst < |m0.disk|
    && var x := m0.mem[src];
       m == Machine(m0.disk[dst := x], m0.mem[dst := x], m0.trace + [Write(dst, x)])
  }

  /** The same blocks are cached in the same buffers. */
  ghost predicate SameKeys(c: B.Cache, d: B.Cache) {
    && |d.bufs| == |c.bufs| && d.at == c.at
    && forall j :: 0 <= j < |c.bufs| ==> d.bufs[j].key == c.bufs[j].key && d.bufs[j].valid == c.bufs[j].valid
  }

  // ----- a transaction from power-on -----

  /** The blocks of the disk, as blocks of device 1. */
  function Device(d: Disk): (m: map<B.Key, Block>)
    ensures forall b: nat :: b < |d| ==> (1, b) in m && m[(1, b)] == d[b]
  {
    map b: nat | b < |d| :: (1, b) := d[b]
  }

  lemma DeviceView(d: Disk)
    ensures View(Device(d), 1, |d|) == d
  {
  }

  lemma {:induction false} SetOfCount(bs: seq<nat>)
    requires forall i, j :: 0 <= i < j < |bs| ==> bs[i] != bs[j]
    ensures |SetOf(bs)| == |bs|
  {
    if bs != [] {
      var n := |bs| - 1;
      SetOfCount(bs[..n]);
      assert bs == bs[..n] + [bs[n]] && bs[n] !in bs[..n];
      assert SetOf(bs) == SetOf(bs[..n]) + {bs[n]};
    }
  }

  /** The first k blocks of the transaction have their new contents in memory. */
  ghost predicate Changed(m: Machine, d: Disk, bs: seq<nat>, vs: seq<Block>, k: nat) {
    && k <= |bs| == |vs| && m.disk == d && |m.mem| == |d| && m.trace == []
    && forall j :: 0 <= j < k ==> bs[j] < |m.mem| && m.mem[bs[j]] == vs[j]
  }

  /**
    Every transaction of the log, run on the machine after power-on: each block is read, changed and
    logged, then commit() issues exactly the commit writes of the crash lemmas, unless the
    transaction has as many blocks as there are buffers. Then commit() panics for want of a buffer.
  */
  method RunTransaction(l: Layout, d: Disk, bs: seq<nat>, vs: seq<Block>) returns (ok: bool, log: Log)
    requires LayoutOk(l, d) && TxOk(l, d, bs) && |vs| == |bs| && Num(d[l.start]) == 0
    ensures ok <==> |bs| < B.NBUF
    ensures ok ==> log.Valid() && log.lh == [] && log.M().trace == CommitWrites(l, d, bs, vs)
    ensures ok ==> log.M().disk == Apply(d, CommitWrites(l, d, bs, vs))
  {
    hide Sound, Mach, B.CacheOk, B.Ring, B.All, Apply, CommitWrites, View, Idle;
    DeviceView(d);
    var bio := new B.Bio(Device(d));
    log := new Log(l, 1, |d|, bio);
    NoHolds();
    NoneSet();
    var k := 0;
    while k < |bs|
      invariant k <= |bs| && log.l == l && log.n == |d| && log.Valid() && log.lh == bs[..k] && Idle(log.u.hold)
      invariant Changed(log.M(), d, bs, vs, k)
      invariant fresh(log) && fresh(log.bio)
    {
      ghost var m := log.M();
      FreeBuffer(log.bio.c, log.dev, log.n, log.u, bs, k);
      var good := log.Update(bs[k], vs[k], 1);
      assert good;
      ChangedMore(m, log.M(), d, bs, vs, k);
      assert bs[..k + 1] == bs[..k] + [bs[k]];
      k := k + 1;
    }
    assert bs[..k] == bs;
    SetOfCount(bs);
    ghost var m := log.M();
    ValuesAre(m, d, bs, vs);
    ok := log.Commit();
  }

  lemma NoHolds()
    ensures Idle(NoUse().hold)
  {
  }

  lemma NoneSet()
    ensures SetOf([]) == {}
  {
  }

  lemma FreeBuffer(c: B.Cache, dev: nat, n: nat, u: Use, bs: seq<nat>, k: nat)
    requires Sound(c, dev, n, u) && Idle(u.hold) && k < |bs| <= B.NBUF && u.pins == SetOf(bs[..k])
    requires forall i, j :: 0 <= i < j < |bs| ==> bs[i] != bs[j]
    ensures !B.AllReferenced(c) && bs[k] !in bs[..k]
  {
    hide Sound;
    SetOfCount(bs[..k]);
    AllBusy(c, dev, n, u);
    BufCount(c, dev, n, u);
  }

  lemma BufCount(c: B.Cache, dev: nat, n: nat, u: Use)
    requires Sound(c, dev, n, u)
    ensures |c.bufs| == B.NBUF
  {
  }

  lemma ChangedMore(m: Machine, m': Machine, d: Disk, bs: seq<nat>, vs: seq<Block>, k: nat)
    requires Changed(m, d, bs, vs, k) && k < |bs| && bs[k] < |d| && m' == m.(mem := m.mem[bs[k] := vs[k]])
    requires forall i, j :: 0 <= i < j < |bs| ==> bs[i] != bs[j]
    ensures Changed(m', d, bs, vs, k + 1)
  {
  }

  lemma ValuesAre(m: Machine, d: Disk, bs: seq<nat>, vs: seq<Block>)
    requires Changed(m, d, bs, vs, |bs|)
    ensures Values(m.mem, bs) == vs
  {
  }

  /** With a log of more than LOGSIZE blocks there are transactions of as many blocks as buffers. */
  lemma BuffersRunOut(l: Layout, d: Disk) returns (bs: seq<nat>)
    requires LayoutOk(l, d) && l.size > LOGSIZE && l.start + l.size + B.NBUF <= |d|
    ensures TxOk(l, d, bs) && |bs| == B.NBUF
  {
    bs := seq(B.NBUF, k => l.start + l.size + k);
  }
}
