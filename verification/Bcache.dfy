/**
  The buffer cache (kernel/bio.c): a fixed set of buffers on a doubly linked ring ordered by
  use, at most one buffer for a block, and contents that agree with the disk unless a buffer is
  held or pinned.
*/
module Bcache {
  import FsDisk
  import opened Param

  const NBUF: nat := MAXOPBLOCKS * 3
  const HEAD: nat := NBUF             // the list head is the node after the buffers

  type Key = (nat, nat)               // device and block number
  type Block = FsDisk.Block

  datatype Buf = Buf(key: Key, valid: bool, refcnt: nat, data: Block)

  // ----- the ring -----

  datatype Links = Links(next: seq<nat>, prev: seq<nat>)

  /** The nodes in order, starting and ending at the head. */
  function Node(order: seq<nat>, i: nat): nat
    requires i <= |order| + 1
  {
    if i == 0 || i == |order| + 1 then HEAD else order[i - 1]
  }

  ghost predicate Link(l: Links, order: seq<nat>, i: nat)
    requires |l.next| == NBUF + 1 && |l.prev| == NBUF + 1 && i <= |order| && Nodes(order)
  {
    l.next[Node(order, i)] == Node(order, i + 1) && l.prev[Node(order, i + 1)] == Node(order, i)
  }

  ghost predicate Nodes(order: seq<nat>) { forall k :: 0 <= k < |order| ==> order[k] < NBUF }

  ghost predicate Distinct(order: seq<nat>) {
    forall i, j :: 0 <= i < j < |order| ==> order[i] != order[j]
  }

  /** The links form a cycle through the head and exactly these buffers, in this order. */
  ghost predicate Ring(l: Links, order: seq<nat>) {
    && |l.next| == NBUF + 1 && |l.prev| == NBUF + 1 && Nodes(order) && Distinct(order)
    && forall i: nat {:trigger Link(l, order, i)} :: i <= |order| ==> Link(l, order, i)
  }

  /** The two stores that take a buffer off the ring. */
  function Unlink(l: Links, b: nat): Links
    requires |l.next| == NBUF + 1 && |l.prev| == NBUF + 1 && b <= NBUF && l.next[b] <= NBUF && l.prev[b] <= NBUF
  {
    Links(l.next[l.prev[b] := l.next[b]], l.prev[l.next[b] := l.prev[b]])
  }

  /** The four stores that put a buffer behind the head. */
  function Push(l: Links, b: nat): Links
    requires |l.next| == NBUF + 1 && |l.prev| == NBUF + 1 && b < NBUF && l.next[HEAD] <= NBUF
  {
    var first := l.next[HEAD];
    Links(l.next[b := first][HEAD := b], l.prev[b := HEAD][first := b])
  }

  function Without(order: seq<nat>, j: nat): seq<nat>
    requires j < |order|
  {
    order[..j] + order[j + 1..]
  }

  lemma UnlinkRing(l: Links, order: seq<nat>, j: nat)
    requires Ring(l, order) && j < |order|
    ensures var b := order[j]; b < NBUF && l.next[b] <= NBUF && l.prev[b] <= NBUF && Ring(Unlink(l, b), Without(order, j))
  {
    var b := order[j];
    assert Link(l, order, j) && Link(l, order, j + 1);
    var m, rest := Unlink(l, b), Without(order, j);
    assert Node(order, j + 1) == b;
    forall i: nat | i <= |rest| ensures Link(m, rest, i) {
      assert Node(rest, i) == if i <= j then Node(order, i) else Node(order, i + 1);
      assert Node(rest, i + 1) == if i + 1 <= j then Node(order, i + 1) else Node(order, i + 2);
      assert Link(l, order, i);
      assert Link(l, order, i + 1);
    }
  }

  lemma PushRing(l: Links, order: seq<nat>, b: nat)
    requires Ring(l, order) && b < NBUF && b !in order
    ensures l.next[HEAD] <= NBUF && Ring(Push(l, b), [b] + order)
  {
    assert Link(l, order, 0);
    var m, more := Push(l, b), [b] + order;
    forall i: nat | i <= |more| ensures Link(m, more, i) {
      if i > 0 {
        assert Link(l, order, i - 1);
        assert Node(more, i) == if i == 1 then b else Node(order, i - 1);
        assert Node(more, i + 1) == Node(order, i);
      }
    }
  }

  /** A head that is its own neighbour is a ring without buffers. */
  lemma EmptyRing(l: Links)
    requires |l.next| == NBUF + 1 && |l.prev| == NBUF + 1 && l.next[HEAD] == HEAD && l.prev[HEAD] == HEAD
    ensures Ring(l, [])
  {
  }

  /** Every buffer is on the ring. */
  ghost predicate All(order: seq<nat>) { forall b: nat :: b < NBUF ==> b in order }

  /** Moving a buffer to the front keeps all buffers on the ring. */
  lemma FrontAll(order: seq<nat>, j: nat)
    requires All(order) && Distinct(order) && j < |order|
    ensures All([order[j]] + Without(order, j)) && order[j] !in Without(order, j)
  {
    forall b: nat | b < NBUF ensures b in [order[j]] + Without(order, j) {
      assert b in order;
      var k :| 0 <= k < |order| && order[k] == b;
      if k < j { assert Without(order, j)[k] == b; } else if k > j { assert Without(order, j)[k - 1] == b; }
    }
  }

  // ----- the cache -----

  /**
    The buffers, the disk, and what the file system sees: the disk overlaid with the changes
    that have not reached it. Loose blocks are those whose buffer was given up with a change that
    had not reached the disk: recycling the buffer loses the change, so nothing is promised of them.
  */
  datatype Cache =
    Cache(bufs: seq<Buf>, disk: map<Key, Block>, seen: map<Key, Block>, at: map<Key, nat>, loose: set<Key>)

  /** A buffer for a block of a real device holds what is seen, and the disk agrees if it is idle. */
  ghost predicate BufOk(c: Cache, i: nat)
    requires i < |c.bufs|
  {
    var b := c.bufs[i];
    b.key.0 != 0 ==>
      && b.key in c.at && c.at[b.key] == i && b.key in c.disk && b.key in c.seen
      && (b.valid && b.key !in c.loose ==> b.data == c.seen[b.key] && (b.refcnt == 0 ==> b.data == c.disk[b.key]))
  }

  /** A block that no valid buffer holds is seen as it is on disk. */
  ghost predicate KeyOk(c: Cache, k: Key)
    requires k in c.disk
  {
    && k in c.seen
    && (k in c.loose || (k in c.at && c.at[k] < |c.bufs| && c.bufs[c.at[k]].valid) || c.seen[k] == c.disk[k])
  }

  ghost predicate CacheOk(c: Cache) {
    && |c.bufs| == NBUF
    && (forall i: nat {:trigger BufOk(c, i)} :: i < NBUF ==> BufOk(c, i))
    && (forall k {:trigger KeyOk(c, k)} :: k in c.disk ==> KeyOk(c, k))
    && (forall k :: k in c.at ==> k.0 != 0 && c.at[k] < NBUF && c.bufs[c.at[k]].key == k)
    && c.seen.Keys == c.disk.Keys
  }

  /** At most one buffer is for a block of a real device. */
  lemma OneBuffer(c: Cache, i: nat, j: nat)
    requires CacheOk(c) && i < NBUF && j < NBUF && c.bufs[i].key == c.bufs[j].key && c.bufs[i].key.0 != 0
    ensures i == j
  {
    assert BufOk(c, i) && BufOk(c, j);
  }

  /** A buffer that differs from the disk is in use, unless it is loose. */
  lemma DirtyInUse(c: Cache, i: nat)
    requires CacheOk(c) && i < NBUF && c.bufs[i].key.0 != 0 && c.bufs[i].valid && c.bufs[i].key !in c.loose
    ensures c.bufs[i].key in c.disk && (c.bufs[i].data != c.disk[c.bufs[i].key] ==> c.bufs[i].refcnt > 0)
  {
    assert BufOk(c, i);
  }

  predicate AllReferenced(c: Cache) { forall i :: 0 <= i < |c.bufs| ==> c.bufs[i].refcnt > 0 }

  // ----- the steps -----

  function SetBuf(c: Cache, i: nat, b: Buf): Cache
    requires i < |c.bufs|
  {
    c.(bufs := c.bufs[i := b])
  }

  /** Another user of a cached block. */
  lemma HitOk(c: Cache, i: nat)
    requires CacheOk(c) && i < NBUF
    ensures CacheOk(SetBuf(c, i, c.bufs[i].(refcnt := c.bufs[i].refcnt + 1)))
  {
    var d := SetBuf(c, i, c.bufs[i].(refcnt := c.bufs[i].refcnt + 1));
    forall j: nat | j < NBUF ensures BufOk(d, j) { assert BufOk(c, j); }
    forall k | k in d.disk ensures KeyOk(d, k) { assert KeyOk(c, k); }
  }

  function Recycled(c: Cache, i: nat, key: Key): Cache
    requires i < |c.bufs|
  {
    SetBuf(c, i, Buf(key, false, 1, c.bufs[i].data)).(at := (map k | k in c.at && c.at[k] != i :: c.at[k])[key := i])
  }

  /** Recycling an idle buffer for a block that is not cached. */
  lemma RecycleOk(c: Cache, i: nat, key: Key)
    requires CacheOk(c) && i < NBUF && c.bufs[i].refcnt == 0 && key.0 != 0 && key in c.disk
    requires forall j :: 0 <= j < NBUF ==> c.bufs[j].key != key
    ensures CacheOk(Recycled(c, i, key))
  {
    var d := Recycled(c, i, key);
    assert BufOk(c, i);
    forall j: nat | j < NBUF ensures BufOk(d, j) { assert BufOk(c, j); }
    forall k | k in d.disk ensures KeyOk(d, k) { assert KeyOk(c, k); }
  }

  /** Reading a block into its buffer. */
  lemma FillOk(c: Cache, i: nat)
    requires CacheOk(c) && i < NBUF && !c.bufs[i].valid && c.bufs[i].key.0 != 0
    ensures c.bufs[i].key in c.disk && (c.bufs[i].key !in c.loose ==> c.seen[c.bufs[i].key] == c.disk[c.bufs[i].key])
    ensures CacheOk(SetBuf(c, i, c.bufs[i].(valid := true, data := c.disk[c.bufs[i].key])))
  {
    assert BufOk(c, i) && KeyOk(c, c.bufs[i].key);
    var d := SetBuf(c, i, c.bufs[i].(valid := true, data := c.disk[c.bufs[i].key]));
    forall j: nat | j < NBUF ensures BufOk(d, j) { assert BufOk(c, j); }
    forall k | k in d.disk ensures KeyOk(d, k) { assert KeyOk(c, k); }
  }

  /** The user of a buffer changes its data: this is what the file system sees from now on. */
  lemma ModifyOk(c: Cache, i: nat, x: Block)
    requires CacheOk(c) && i < NBUF && c.bufs[i].valid && c.bufs[i].refcnt > 0 && c.bufs[i].key.0 != 0
    ensures CacheOk(SetBuf(c, i, c.bufs[i].(data := x)).(seen := c.seen[c.bufs[i].key := x]))
  {
    assert BufOk(c, i);
    var d := SetBuf(c, i, c.bufs[i].(data := x)).(seen := c.seen[c.bufs[i].key := x]);
    forall j: nat | j < NBUF ensures BufOk(d, j) { assert BufOk(c, j); }
    forall k | k in d.disk ensures KeyOk(d, k) { assert KeyOk(c, k); }
  }

  /** bwrite() */
  lemma WriteOk(c: Cache, i: nat)
    requires CacheOk(c) && i < NBUF && c.bufs[i].valid && c.bufs[i].key.0 != 0
    ensures c.bufs[i].key in c.disk && CacheOk(c.(disk := c.disk[c.bufs[i].key := c.bufs[i].data]))
  {
    assert BufOk(c, i);
    var d := c.(disk := c.disk[c.bufs[i].key := c.bufs[i].data]);
    forall j: nat | j < NBUF ensures BufOk(d, j) { assert BufOk(c, j); }
    forall k | k in d.disk ensures KeyOk(d, k) { assert KeyOk(c, k); }
  }

  predicate Clean(c: Cache, i: nat)
    requires i < |c.bufs|
  {
    c.bufs[i].valid && c.bufs[i].key in c.disk ==> c.bufs[i].data == c.disk[c.bufs[i].key]
  }

  /** The cache with one reference less: giving up the last one to a modified buffer makes its block loose. */
  function Dropped(c: Cache, i: nat): Cache
    requires i < |c.bufs| && c.bufs[i].refcnt > 0
  {
    var b := c.bufs[i];
    SetBuf(c, i, b.(refcnt := b.refcnt - 1)).(loose := if b.refcnt == 1 && !Clean(c, i) then c.loose + {b.key} else c.loose)
  }

  lemma DropOk(c: Cache, i: nat)
    requires CacheOk(c) && i < NBUF && c.bufs[i].refcnt > 0
    ensures CacheOk(Dropped(c, i))
  {
    var d := Dropped(c, i);
    forall j: nat | j < NBUF ensures BufOk(d, j) { assert BufOk(c, j); }
    forall k | k in d.disk ensures KeyOk(d, k) { assert KeyOk(c, k); }
  }

  /** The buffers at power-on, all zero. */
  function PowerOn(disk: map<Key, Block>): (c: Cache)
    ensures |c.bufs| == NBUF
  {
    Cache(seq(NBUF, _ => Buf((0, 0), false, 0, FsDisk.Zeros())), disk, disk, map[], {})
  }

  lemma PowerOnOk(disk: map<Key, Block>)
    ensures CacheOk(PowerOn(disk))
  {
    var c := PowerOn(disk);
    forall k | k in c.disk ensures KeyOk(c, k) {}
  }

  // ----- the code -----

  class Bio {
    var l: Links
    var c: Cache
    ghost var order: seq<nat>
    ghost var when: seq<nat>          // when brelse() last left each buffer idle
    ghost var now: nat

    ghost predicate Ok() reads this {
      |c.bufs| == NBUF && CacheOk(c) && Ring(l, order) && All(order) && |order| == NBUF && Latest(order, when, now)
    }

    constructor (disk: map<Key, Block>)
      ensures Ok() && c == PowerOn(disk)
    {
      l, c, order := Links(seq(NBUF + 1, _ => 0), seq(NBUF + 1, _ => 0)), PowerOn(disk), [];
      new;
      PowerOnOk(disk);
      Init();
    }

    /** binit(): the ring holds all buffers, the last one first. */
    method Init()
      requires CacheOk(c) && |l.next| == NBUF + 1 && |l.prev| == NBUF + 1
      modifies this
      ensures Ok() && c == old(c) && forall k :: 0 <= k < NBUF ==> order[k] == NBUF - 1 - k
    {
      when, now := seq(NBUF, i => i), NBUF;
      l := Links(l.next[HEAD := HEAD], l.prev[HEAD := HEAD]);
      order := [];
      EmptyRing(l);
      var b := 0;
      while b < NBUF
        invariant b <= NBUF && c == old(c) && Ring(l, order) && |order| == b && when == seq(NBUF, i => i) && now == NBUF
        invariant forall k :: 0 <= k < b ==> order[k] == b - 1 - k
      {
        PushRing(l, order, b);
        l := Links(l.next[b := l.next[HEAD]], l.prev[b := HEAD]);
        l := l.(prev := l.prev[l.next[HEAD] := b]);
        l := l.(next := l.next[HEAD := b]);
        order := [b] + order;
        b := b + 1;
      }
      forall x: nat | x < NBUF ensures x in order { assert order[NBUF - 1 - x] == x; }
      assert Latest(order, when, now);
    }
  
    /**
      bget(): the buffer for a block, with a reference: the one that caches it, or among the idle ones
      that which brelse() left idle the longest time ago. It fails only when all are in use.
    */
    method Bget(key: Key) returns (ok: bool, b: nat)
      requires Ok() && key.0 != 0 && key in c.disk
      modifies this`c
      ensures Ok() && c.disk == old(c).disk && c.seen == old(c).seen && c.loose == old(c).loose
      ensures ok ==> b < NBUF && c.bufs[b].key == key && c.bufs[b].refcnt > 0
      ensures ok && key in old(c).at ==> b == old(c).at[key] && c == SetBuf(old(c), b, old(c).bufs[b].(refcnt := old(c).bufs[b].refcnt + 1))
      ensures ok && key !in old(c).at ==> old(c).bufs[b].refcnt == 0 && c == Recycled(old(c), b, key)
      ensures ok && key !in old(c).at ==> forall i :: 0 <= i < NBUF && old(c).bufs[i].refcnt == 0 ==> when[b] <= when[i]
      ensures !ok ==> c == old(c) && key !in c.at && forall i :: 0 <= i < NBUF ==> c.bufs[i].refcnt > 0
    {
      hide CacheOk, All, Latest;
      b := l.next[HEAD];
      ghost var p := 1;
      assert Link(l, order, 0);
      while b != HEAD
        invariant 1 <= p <= NBUF + 1 && b == Node(order, p) && c == old(c) && |c.bufs| == NBUF
        invariant forall k :: 0 <= k < p - 1 ==> c.bufs[order[k]].key != key
        decreases NBUF + 1 - p
      {
        assert Link(l, order, p);
        if c.bufs[b].key == key {
          HitOk(c, b);
          CachedAt(c, b, key);
          c := SetBuf(c, b, c.bufs[b].(refcnt := c.bufs[b].refcnt + 1));
          return true, b;
        }
        b := l.next[b];
        p := p + 1;
      }
      NotCached(c, order, key);
      b := l.prev[HEAD];
      p := NBUF;
      assert Link(l, order, NBUF);
      while b != HEAD
        invariant 0 <= p <= NBUF && b == Node(order, p) && c == old(c) && |c.bufs| == NBUF
        invariant forall k :: p <= k < NBUF ==> c.bufs[order[k]].refcnt > 0
        decreases p
      {
        assert p > 0 && Link(l, order, p - 1);
        if c.bufs[b].refcnt == 0 {
          Longest(c, order, when, now, p - 1);
          RecycleOk(c, b, key);
          c := Recycled(c, b, key);
          return true, b;
        }
        b := l.prev[b];
        p := p - 1;
      }
      AllInUse(c, order);
      return false, 0;
    }

    /** bread(): a buffer with the contents that the file system sees for the block. */
    method Bread(key: Key) returns (ok: bool, b: nat)
      requires Ok() && key.0 != 0 && key in c.disk
      modifies this`c
      ensures Ok() && c.disk == old(c).disk && c.seen == old(c).seen && c.loose == old(c).loose
      ensures ok ==> b < NBUF && c.bufs[b].key == key && c.bufs[b].refcnt > 0 && c.bufs[b].valid
      ensures ok && key !in c.loose ==> key in c.seen && c.bufs[b].data == c.seen[key]
      ensures ok ==> c.bufs[b].refcnt == 1 + (if key in old(c).at then old(c).bufs[b].refcnt else 0)
      ensures ok ==> (if key in old(c).at then b == old(c).at[key] else old(c).bufs[b].refcnt == 0)
      ensures ok ==> forall i :: 0 <= i < NBUF && i != b ==> c.bufs[i] == old(c).bufs[i]
      ensures !ok ==> c == old(c) && key !in c.at && forall i :: 0 <= i < NBUF ==> c.bufs[i].refcnt > 0
    {
      hide Ring, All, Latest;
      ok, b := Bget(key);
      if !ok { return; }
      if !c.bufs[b].valid {
        FillOk(c, b);
        c := SetBuf(c, b, c.bufs[b].(valid := true, data := c.disk[key]));
      }
      assert BufOk(c, b);
    }

    /** bwrite() */
    method Bwrite(b: nat)
      requires Ok() && b < NBUF && c.bufs[b].valid && c.bufs[b].key.0 != 0
      modifies this`c
      ensures Ok() && c == old(c).(disk := old(c).disk[c.bufs[b].key := c.bufs[b].data]) && Clean(c, b)
    {
      WriteOk(c, b);
      c := c.(disk := c.disk[c.bufs[b].key := c.bufs[b].data]);
    }

    /** A client changes the data of a buffer it holds. */
    method Modify(b: nat, x: Block)
      requires Ok() && b < NBUF && c.bufs[b].valid && c.bufs[b].refcnt > 0 && c.bufs[b].key.0 != 0
      modifies this`c
      ensures Ok() && c == SetBuf(old(c), b, old(c).bufs[b].(data := x)).(seen := old(c).seen[c.bufs[b].key := x])
    {
      ModifyOk(c, b, x);
      c := SetBuf(c, b, c.bufs[b].(data := x)).(seen := c.seen[c.bufs[b].key := x]);
    }

    /** brelse(): drop a reference; an idle buffer becomes the most recently used. */
    method Brelse(b: nat)
      requires Ok() && b < NBUF && c.bufs[b].refcnt > 0
      modifies this
      ensures Ok() && c == Dropped(old(c), b)
      ensures c.bufs[b].refcnt > 0 ==> order == old(order) && when == old(when) && now == old(now)
      ensures c.bufs[b].refcnt == 0 ==> order[0] == b && order[1..] == Others(old(order), b)
      ensures c.bufs[b].refcnt == 0 ==> when == old(when)[b := old(now)] && now == old(now) + 1
    {
      hide CacheOk, Latest, All, Distinct, Nodes, Link;
      DropOk(c, b);
      c := Dropped(c, b);
      if c.bufs[b].refcnt == 0 {
        ghost var j := PlaceOf(order, b);
        FrontAll(order, j);
        UnlinkRing(l, order, j);
        OthersAre(order, j);
        PushRing(Unlink(l, b), Without(order, j), b);
        l := l.(prev := l.prev[l.next[b] := l.prev[b]]);
        l := l.(next := l.next[l.prev[b] := l.next[b]]);
        l := Links(l.next[b := l.next[HEAD]], l.prev[b := HEAD]);
        l := l.(prev := l.prev[l.next[HEAD] := b]);
        l := l.(next := l.next[HEAD := b]);
        LatestNow(order, when, now, j);
        order := [b] + Without(order, j);
        when, now := when[b := now], now + 1;
      }
    }

    /** bpin() */
    method Bpin(b: nat)
      requires Ok() && b < NBUF
      modifies this`c
      ensures Ok() && c == SetBuf(old(c), b, old(c).bufs[b].(refcnt := old(c).bufs[b].refcnt + 1))
    {
      HitOk(c, b);
      c := SetBuf(c, b, c.bufs[b].(refcnt := c.bufs[b].refcnt + 1));
    }

    /** bunpin() */
    method Bunpin(b: nat)
      requires Ok() && b < NBUF && c.bufs[b].refcnt > 0
      modifies this`c
      ensures Ok() && c == Dropped(old(c), b)
    {
      DropOk(c, b);
      c := Dropped(c, b);
    }
  }

  /** The buffers that were left idle later come first. */
  ghost predicate Latest(order: seq<nat>, when: seq<nat>, now: nat) {
    && |when| == NBUF && Nodes(order) && (forall i :: 0 <= i < NBUF ==> when[i] < now)
    && forall j, k :: 0 <= j < k < |order| ==> when[order[j]] > when[order[k]]
  }

  /** The last idle buffer in the order has been idle the longest. */
  lemma Longest(c: Cache, order: seq<nat>, when: seq<nat>, now: nat, j: nat)
    requires |c.bufs| == NBUF && Latest(order, when, now) && All(order) && j < |order|
    requires forall k :: j < k < |order| ==> c.bufs[order[k]].refcnt > 0
    ensures forall i :: 0 <= i < NBUF && c.bufs[i].refcnt == 0 ==> when[order[j]] <= when[i]
  {
    forall i | 0 <= i < NBUF && c.bufs[i].refcnt == 0 ensures when[order[j]] <= when[i] {
      assert i in order;
      var k :| 0 <= k < |order| && order[k] == i;
    }
  }

  lemma LatestNow(order: seq<nat>, when: seq<nat>, now: nat, j: nat)
    requires Latest(order, when, now) && Distinct(order) && j < |order|
    ensures |when| == NBUF && order[j] < NBUF && Latest([order[j]] + Without(order, j), when[order[j] := now], now + 1)
  {
    var o, w := [order[j]] + Without(order, j), when[order[j] := now];
    forall x, y | 0 <= x < y < |o| ensures w[o[x]] > w[o[y]] {
      var y' := if y - 1 < j then y - 1 else y;
      assert o[y] == order[y'] && y' != j;
      if x > 0 {
        var x' := if x - 1 < j then x - 1 else x;
        assert o[x] == order[x'] && x' != j && x' < y';
      }
    }
  }

  lemma PlaceOf(order: seq<nat>, b: nat) returns (j: nat)
    requires All(order) && b < NBUF
    ensures j < |order| && order[j] == b
  {
    assert b in order;
    j :| j < |order| && order[j] == b;
  }

  /** The order without b. */
  ghost function Others(order: seq<nat>, b: nat): seq<nat> {
    if order == [] then [] else if order[0] == b then order[1..] else [order[0]] + Others(order[1..], b)
  }

  lemma {:induction false} OthersAre(order: seq<nat>, j: nat)
    requires Distinct(order) && j < |order|
    ensures Others(order, order[j]) == Without(order, j)
  {
    if j > 0 {
      OthersAre(order[1..], j - 1);
      assert Without(order, j) == [order[0]] + Without(order[1..], j - 1);
    }
  }

  lemma CachedAt(c: Cache, b: nat, key: Key)
    requires CacheOk(c) && b < NBUF && c.bufs[b].key == key && key.0 != 0
    ensures key in c.at && c.at[key] == b
  {
    assert BufOk(c, b);
  }

  lemma NotCached(c: Cache, order: seq<nat>, key: Key)
    requires CacheOk(c) && All(order) && Nodes(order) && forall k :: 0 <= k < |order| ==> c.bufs[order[k]].key != key
    ensures key !in c.at && forall i :: 0 <= i < NBUF ==> c.bufs[i].key != key
  {
    forall i | 0 <= i < NBUF ensures c.bufs[i].key != key {
      assert i in order;
      var k :| 0 <= k < |order| && order[k] == i;
    }
  }

  lemma AllInUse(c: Cache, order: seq<nat>)
    requires |c.bufs| == NBUF && All(order) && Nodes(order) && forall k :: 0 <= k < |order| ==> c.bufs[order[k]].refcnt > 0
    ensures forall i :: 0 <= i < NBUF ==> c.bufs[i].refcnt > 0
  {
    forall i | 0 <= i < NBUF ensures c.bufs[i].refcnt > 0 {
      assert i in order;
      var k :| 0 <= k < |order| && order[k] == i;
    }
  }
}
