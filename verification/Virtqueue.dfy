/**
  The split virtqueue of the disk driver (kernel/virtio_disk.c, section 2.6 of Virtio 1.1):
  driver, device and interrupt handler share a descriptor table and two rings whose 16-bit
  indices wrap around.
*/
module Virtqueue {
  const NUM: nat := 8
  const U16: nat := 0x1_0000

  /** The parts of a descriptor that link a chain. */
  datatype Desc = Desc(next: nat, more: bool)

  /**
    free, desc and info[].b (0 for none); the avail ring and its index; the used ring and its
    index; the driver's position in the used ring and the device's in the avail ring; and the
    buffers whose disk field is 1.
  */
  datatype Vq = Vq(free: seq<bool>, desc: seq<Desc>, info: seq<nat>, avail: seq<nat>, availIdx: nat,
                   used: seq<nat>, usedIdx: nat, seen: nat, devSeen: nat, busy: set<nat>)

  /** Where a request is; the numbers count ring entries from the start. */
  datatype Stage = Avail(k: nat) | Taken | Used(k: nat) | Done

  /** A request: its number, its buffer, its other two descriptors, its stage. */
  datatype Chain = Chain(id: nat, b: nat, d1: nat, d2: nat, stage: Stage)

  /**
    The requests by their first descriptor; the request that each descriptor, each busy buffer and
    each number belongs to; how many entries were ever made available, taken, used and seen; and
    the numbers of the requests that the device completed and whose buffer was released.
  */
  datatype Gh = Gh(chains: map<nat, Chain>, owner: map<nat, nat>, bufs: map<nat, nat>, ids: map<nat, nat>,
                   made: nat, taken: nat, used: nat, seen: nat, completed: set<nat>, released: seq<nat>)

  ghost predicate Sizes(q: Vq) {
    |q.free| == NUM && |q.desc| == NUM && |q.info| == NUM && |q.avail| == NUM && |q.used| == NUM
  }

  /** The 16-bit indices are the counters modulo 2^16, and at most NUM entries are pending. */
  ghost predicate Indices(q: Vq, g: Gh) {
    && q.availIdx == g.made % U16 && q.devSeen == g.taken % U16
    && q.usedIdx == g.used % U16 && q.seen == g.seen % U16
    && g.taken <= g.made <= g.taken + NUM && g.seen <= g.used <= g.seen + NUM
  }

  /** A descriptor is free or belongs to one request. */
  ghost predicate DescOk(q: Vq, g: Gh, i: nat)
    requires Sizes(q) && i < NUM
  {
    && (q.free[i] <==> i !in g.owner)
    && (i in g.owner ==>
          && g.owner[i] in g.chains
          && var h := g.owner[i]; i == h || i == g.chains[h].d1 || i == g.chains[h].d2)
  }

  /** A request owns three linked descriptors and is where its stage says. */
  ghost predicate ChainOk(q: Vq, g: Gh, h: nat)
    requires Sizes(q) && h in g.chains
  {
    var c := g.chains[h];
    && h < NUM && c.d1 < NUM && c.d2 < NUM && h != c.d1 && h != c.d2 && c.d1 != c.d2
    && h in g.owner && g.owner[h] == h && c.d1 in g.owner && g.owner[c.d1] == h && c.d2 in g.owner && g.owner[c.d2] == h
    && q.desc[h] == Desc(c.d1, true) && q.desc[c.d1] == Desc(c.d2, true) && !q.desc[c.d2].more
    && q.info[h] == c.b && c.b != 0 && c.b in g.bufs && g.bufs[c.b] == h
    && (c.b in q.busy <==> c.stage != Done)
    && c.id < g.made && c.id in g.ids && g.ids[c.id] == h
    && (c.id in g.completed <==> c.stage.Used? || c.stage.Done?) && (c.id in g.released <==> c.stage.Done?)
    && match c.stage
       case Avail(k) => g.taken <= k < g.made && q.avail[k % NUM] == h
       case Used(k) => g.seen <= k < g.used && q.used[k % NUM] == h
       case Taken => true
       case Done => true
  }

  /** Every pending ring entry is the first descriptor of a request at that stage. */
  ghost predicate AvailOk(q: Vq, g: Gh, k: nat)
    requires Sizes(q)
  {
    g.taken <= k < g.made ==> q.avail[k % NUM] in g.chains && g.chains[q.avail[k % NUM]].stage == Avail(k)
  }

  ghost predicate UsedOk(q: Vq, g: Gh, k: nat)
    requires Sizes(q)
  {
    g.seen <= k < g.used ==> q.used[k % NUM] in g.chains && g.chains[q.used[k % NUM]].stage == Used(k)
  }

  ghost predicate VqOk(q: Vq, g: Gh) {
    && Sizes(q) && Indices(q, g)
    && (forall i: nat {:trigger DescOk(q, g, i)} :: i < NUM ==> DescOk(q, g, i))
    && (forall i :: i in g.owner ==> i < NUM)
    && (forall h {:trigger ChainOk(q, g, h)} :: h in g.chains ==> ChainOk(q, g, h))
    && (forall k: nat {:trigger AvailOk(q, g, k)} :: AvailOk(q, g, k))
    && (forall k: nat {:trigger UsedOk(q, g, k)} :: UsedOk(q, g, k))
    && Tables(q, g) && Released(g)
  }

  /** The requests that buffers and numbers belong to. */
  ghost predicate Tables(q: Vq, g: Gh) {
    && (forall b :: b in g.bufs ==> g.bufs[b] in g.chains && g.chains[g.bufs[b]].b == b)
    && (forall b :: b in q.busy ==> b in g.bufs)
    && (forall x :: x in g.ids ==> g.ids[x] in g.chains && g.chains[g.ids[x]].id == x)
  }

  /** A buffer is released at most once for each request, after its completion. */
  ghost predicate Released(g: Gh) {
    && (forall x :: x in g.completed ==> x < g.made)
    && (forall k :: 0 <= k < |g.released| ==> g.released[k] in g.completed)
    && (forall k, l :: 0 <= k < l < |g.released| ==> g.released[k] != g.released[l])
  }

  // ----- the steps -----

  /** virtio_disk_rw() up to the notification, with the descriptors i, j, k. */
  function Submit(q: Vq, i: nat, j: nat, k: nat, b: nat): Vq
    requires Sizes(q) && i < NUM && j < NUM && k < NUM
  {
    q.(free := q.free[i := false][j := false][k := false],
       desc := q.desc[i := Desc(j, true)][j := Desc(k, true)][k := Desc(0, false)],
       info := q.info[i := b], busy := q.busy + {b},
       avail := q.avail[q.availIdx % NUM := i], availIdx := (q.availIdx + 1) % U16)
  }

  ghost function Submitted(g: Gh, i: nat, j: nat, k: nat, b: nat): Gh {
    g.(chains := g.chains[i := Chain(g.made, b, j, k, Avail(g.made))], owner := g.owner[i := i][j := i][k := i],
       bufs := g.bufs[b := i], ids := g.ids[g.made := i], made := g.made + 1)
  }

  /** The device reads the next avail entry. */
  function DevTake(q: Vq): Vq { q.(devSeen := (q.devSeen + 1) % U16) }

  ghost function DevTook(q: Vq, g: Gh): Gh
    requires Sizes(q) && q.avail[g.taken % NUM] in g.chains
  {
    var h := q.avail[g.taken % NUM];
    g.(chains := g.chains[h := g.chains[h].(stage := Taken)], taken := g.taken + 1)
  }

  /** The device completes a request it has taken. */
  function DevComplete(q: Vq, h: nat): Vq
    requires Sizes(q)
  {
    q.(used := q.used[q.usedIdx % NUM := h], usedIdx := (q.usedIdx + 1) % U16)
  }

  ghost function DevCompleted(g: Gh, h: nat): Gh
    requires h in g.chains
  {
    g.(chains := g.chains[h := g.chains[h].(stage := Used(g.used))], used := g.used + 1,
       completed := g.completed + {g.chains[h].id})
  }

  /** One round of virtio_disk_intr(). */
  function Intr(q: Vq): Vq
    requires Sizes(q) && q.used[q.seen % NUM] < NUM
  {
    q.(busy := q.busy - {q.info[q.used[q.seen % NUM]]}, seen := (q.seen + 1) % U16)
  }

  ghost function IntrDone(q: Vq, g: Gh): Gh
    requires Sizes(q) && q.used[g.seen % NUM] in g.chains
  {
    var h := q.used[g.seen % NUM];
    g.(chains := g.chains[h := g.chains[h].(stage := Done)], seen := g.seen + 1,
       released := g.released + [g.chains[h].id])
  }

  /** The end of virtio_disk_rw(): the descriptors h, j, k are free again. */
  function Finish(q: Vq, h: nat, j: nat, k: nat): Vq
    requires Sizes(q) && h < NUM && j < NUM && k < NUM
  {
    q.(free := q.free[h := true][j := true][k := true],
       desc := q.desc[h := Desc(0, false)][j := Desc(0, false)][k := Desc(0, false)], info := q.info[h := 0])
  }

  ghost function Finished(g: Gh, h: nat): Gh
    requires h in g.chains
  {
    var c := g.chains[h];
    g.(chains := g.chains - {h}, owner := g.owner - {h, c.d1, c.d2}, bufs := g.bufs - {c.b}, ids := g.ids - {c.id})
  }

  // ----- indices and rings -----

  lemma WrapIndex(a: nat)
    ensures a % U16 % NUM == a % NUM
  {
    assert a == (a / U16 * 0x2000) * NUM + a % U16;
  }

  lemma WrapNext(a: nat)
    ensures (a % U16 + 1) % U16 == (a + 1) % U16
  {
    assert a + 1 == a / U16 * U16 + (a % U16 + 1);
  }

  lemma WrapEqual(a: nat, b: nat)
    requires a <= b <= a + NUM
    ensures a % U16 == b % U16 <==> a == b
  {
    assert a == a / U16 * U16 + a % U16 && b == b / U16 * U16 + b % U16;
  }

  /** The indices tell whether entries are pending, and where the next one goes, across wrap-around. */
  lemma IndicesMean(q: Vq, g: Gh)
    requires Indices(q, g)
    ensures q.devSeen != q.availIdx <==> g.taken < g.made
    ensures q.seen != q.usedIdx <==> g.seen < g.used
    ensures q.availIdx % NUM == g.made % NUM && q.devSeen % NUM == g.taken % NUM
    ensures q.usedIdx % NUM == g.used % NUM && q.seen % NUM == g.seen % NUM
  {
    WrapEqual(g.taken, g.made);
    WrapEqual(g.seen, g.used);
    WrapIndex(g.made);
    WrapIndex(g.taken);
    WrapIndex(g.used);
    WrapIndex(g.seen);
  }

  ghost function Heads(ring: seq<nat>, lo: nat, n: nat): (s: set<nat>)
    requires |ring| == NUM
  {
    if n == 0 then {} else Heads(ring, lo, n - 1) + {ring[(lo + n - 1) % NUM]}
  }

  /** The pending entries name different requests. */
  ghost predicate Differ(ring: seq<nat>, lo: nat, n: nat)
    requires |ring| == NUM
  {
    forall k, l :: lo <= k < l < lo + n ==> ring[k % NUM] != ring[l % NUM]
  }

  lemma {:induction false} HeadsCount(ring: seq<nat>, lo: nat, n: nat, x: nat)
    requires |ring| == NUM && Differ(ring, lo, n)
    ensures |Heads(ring, lo, n)| == n
    ensures x in Heads(ring, lo, n) <==> exists k :: lo <= k < lo + n && ring[k % NUM] == x
  {
    if n > 0 {
      HeadsCount(ring, lo, n - 1, x);
      HeadsCount(ring, lo, n - 1, ring[(lo + n - 1) % NUM]);
    }
  }

  ghost function Upto(n: nat): (s: set<nat>)
    ensures |s| == n && forall x: nat :: x in s <==> x < n
  {
    if n == 0 then {} else Upto(n - 1) + {n - 1}
  }

  lemma {:induction false} SubsetSize(a: set<nat>, b: set<nat>)
    requires a <= b
    ensures |a| <= |b|
    decreases |a|
  {
    if a != {} {
      var x :| x in a;
      SubsetSize(a - {x}, b - {x});
    }
  }

  /** A descriptor that is not in the ring leaves room for itself. */
  lemma Room(ring: seq<nat>, lo: nat, n: nat, h: nat)
    requires |ring| == NUM && Differ(ring, lo, n) && h < NUM
    requires forall k :: lo <= k < lo + n ==> ring[k % NUM] < NUM && ring[k % NUM] != h
    ensures n < NUM
  {
    hide Upto, Heads;
    HeadsCount(ring, lo, n, h);
    forall x | x in Heads(ring, lo, n) ensures x in Upto(NUM) - {h} { HeadsCount(ring, lo, n, x); }
    SubsetSize(Heads(ring, lo, n), Upto(NUM) - {h});
  }

  lemma AvailRoom(q: Vq, g: Gh, h: nat)
    requires VqOk(q, g) && h < NUM && (h in g.chains ==> !g.chains[h].stage.Avail?)
    ensures g.made < g.taken + NUM
  {
    forall k: nat | g.taken <= k < g.made ensures q.avail[k % NUM] < NUM && q.avail[k % NUM] != h {
      assert AvailOk(q, g, k) && ChainOk(q, g, q.avail[k % NUM]);
    }
    forall k: nat, l: nat | g.taken <= k < l < g.made ensures q.avail[k % NUM] != q.avail[l % NUM] {
      assert AvailOk(q, g, k) && AvailOk(q, g, l);
    }
    Room(q.avail, g.taken, g.made - g.taken, h);
  }

  lemma UsedRoom(q: Vq, g: Gh, h: nat)
    requires VqOk(q, g) && h < NUM && (h in g.chains ==> !g.chains[h].stage.Used?)
    ensures g.used < g.seen + NUM
  {
    forall k: nat | g.seen <= k < g.used ensures q.used[k % NUM] < NUM && q.used[k % NUM] != h {
      assert UsedOk(q, g, k) && ChainOk(q, g, q.used[k % NUM]);
    }
    forall k: nat, l: nat | g.seen <= k < l < g.used ensures q.used[k % NUM] != q.used[l % NUM] {
      assert UsedOk(q, g, k) && UsedOk(q, g, l);
    }
    Room(q.used, g.seen, g.used - g.seen, h);
  }

  lemma SlotApart(i: nat, j: nat)
    requires i < j < i + NUM
    ensures i % NUM != j % NUM
  {
  }

  // ----- every step keeps the protocol -----

  /** A new request overwrites no pending entry. */
  lemma SubmitOk(q: Vq, g: Gh, i: nat, j: nat, k: nat, b: nat)
    requires VqOk(q, g) && i < NUM && j < NUM && k < NUM && i != j && i != k && j != k
    requires q.free[i] && q.free[j] && q.free[k] && b != 0 && b !in g.bufs
    ensures VqOk(Submit(q, i, j, k, b), Submitted(g, i, j, k, b))
  {
    hide ChainOk, AvailOk, UsedOk, Tables, Released;
    var r, t := Submit(q, i, j, k, b), Submitted(g, i, j, k, b);
    FreshHead(q, g, i);
    FreshHead(q, g, j);
    FreshHead(q, g, k);
    AvailRoom(q, g, i);
    IndicesMean(q, g);
    WrapNext(g.made);
    SubmitNew(q, g, i, j, k, b);
    SubmitTables(q, g, i, j, k, b);
    forall h | h in t.chains ensures ChainOk(r, t, h) { if h != i { SubmitChain(q, g, i, j, k, b, h); } }
    forall n: nat ensures AvailOk(r, t, n) && UsedOk(r, t, n) { SubmitRings(q, g, i, j, k, b, n); }
    forall n: nat | n < NUM ensures DescOk(r, t, n) { assert DescOk(q, g, n); }
  }

  lemma SubmitNew(q: Vq, g: Gh, i: nat, j: nat, k: nat, b: nat)
    requires VqOk(q, g) && i < NUM && j < NUM && k < NUM && i != j && i != k && j != k && b != 0
    requires q.availIdx % NUM == g.made % NUM
    ensures ChainOk(Submit(q, i, j, k, b), Submitted(g, i, j, k, b), i)
  {
    hide DescOk, AvailOk, UsedOk, Tables;
  }

  lemma SubmitTables(q: Vq, g: Gh, i: nat, j: nat, k: nat, b: nat)
    requires VqOk(q, g) && i < NUM && j < NUM && k < NUM && i !in g.chains && b !in g.bufs
    ensures Tables(Submit(q, i, j, k, b), Submitted(g, i, j, k, b)) && Released(Submitted(g, i, j, k, b))
  {
    hide DescOk, AvailOk, UsedOk, ChainOk;
  }

  lemma FreshHead(q: Vq, g: Gh, i: nat)
    requires VqOk(q, g) && i < NUM && q.free[i]
    ensures i !in g.chains && i !in g.owner
  {
    assert DescOk(q, g, i);
    assert i in g.chains ==> ChainOk(q, g, i);
  }

  lemma SubmitChain(q: Vq, g: Gh, i: nat, j: nat, k: nat, b: nat, h: nat)
    requires VqOk(q, g) && i < NUM && j < NUM && k < NUM && h in g.chains && h != i
    requires i !in g.owner && j !in g.owner && k !in g.owner && b !in g.bufs && g.made < g.taken + NUM
    requires q.availIdx % NUM == g.made % NUM
    ensures ChainOk(Submit(q, i, j, k, b), Submitted(g, i, j, k, b), h)
  {
    assert ChainOk(q, g, h);
    if g.chains[h].stage.Avail? { SlotApart(g.chains[h].stage.k, g.made); }
  }

  lemma SubmitRings(q: Vq, g: Gh, i: nat, j: nat, k: nat, b: nat, n: nat)
    requires VqOk(q, g) && i < NUM && j < NUM && k < NUM && i !in g.chains && g.made < g.taken + NUM
    requires q.availIdx % NUM == g.made % NUM
    ensures AvailOk(Submit(q, i, j, k, b), Submitted(g, i, j, k, b), n)
    ensures UsedOk(Submit(q, i, j, k, b), Submitted(g, i, j, k, b), n)
  {
    assert AvailOk(q, g, n) && UsedOk(q, g, n);
    if g.taken <= n < g.made { SlotApart(n, g.made); }
  }

  /** The device takes the oldest entry made available. */
  lemma TakeOk(q: Vq, g: Gh)
    requires VqOk(q, g) && q.devSeen != q.availIdx
    ensures q.avail[q.devSeen % NUM] == q.avail[g.taken % NUM] && q.avail[g.taken % NUM] in g.chains
    ensures VqOk(DevTake(q), DevTook(q, g))
  {
    IndicesMean(q, g);
    WrapNext(g.taken);
    assert AvailOk(q, g, g.taken);
    var r, t := DevTake(q), DevTook(q, g);
    forall h | h in t.chains ensures ChainOk(r, t, h) { assert ChainOk(q, g, h); }
    forall n: nat ensures AvailOk(r, t, n) && UsedOk(r, t, n) { assert AvailOk(q, g, n) && UsedOk(q, g, n); }
    forall n: nat | n < NUM ensures DescOk(r, t, n) { assert DescOk(q, g, n); }
  }

  /** Completing a request, in any order, overwrites no entry the driver has not seen. */
  lemma CompleteOk(q: Vq, g: Gh, h: nat)
    requires VqOk(q, g) && h in g.chains && g.chains[h].stage == Taken
    ensures h < NUM && VqOk(DevComplete(q, h), DevCompleted(g, h))
  {
    HeadSmall(q, g, h);
    hide ChainOk, AvailOk, UsedOk, Tables, Released;
    UsedRoom(q, g, h);
    IndicesMean(q, g);
    WrapNext(g.used);
    var r, t := DevComplete(q, h), DevCompleted(g, h);
    CompleteTables(q, g, h);
    forall x | x in t.chains ensures ChainOk(r, t, x) { CompleteChain(q, g, h, x); }
    forall n: nat ensures AvailOk(r, t, n) && UsedOk(r, t, n) { CompleteRings(q, g, h, n); }
    forall n: nat | n < NUM ensures DescOk(r, t, n) { assert DescOk(q, g, n); }
  }

  lemma HeadSmall(q: Vq, g: Gh, h: nat)
    requires VqOk(q, g) && h in g.chains
    ensures h < NUM && g.chains[h].d1 < NUM && g.chains[h].d2 < NUM && g.chains[h].id < g.made
  {
    assert ChainOk(q, g, h);
  }

  lemma CompleteTables(q: Vq, g: Gh, h: nat)
    requires VqOk(q, g) && h in g.chains && g.chains[h].id < g.made
    ensures Tables(DevComplete(q, h), DevCompleted(g, h)) && Released(DevCompleted(g, h))
  {
    hide DescOk, AvailOk, UsedOk, ChainOk;
  }

  lemma CompleteChain(q: Vq, g: Gh, h: nat, x: nat)
    requires VqOk(q, g) && h in g.chains && g.chains[h].stage == Taken && x in g.chains
    requires g.used < g.seen + NUM && q.usedIdx % NUM == g.used % NUM
    ensures ChainOk(DevComplete(q, h), DevCompleted(g, h), x)
  {
    assert ChainOk(q, g, x) && ChainOk(q, g, h);
    if g.chains[x].stage.Used? { SlotApart(g.chains[x].stage.k, g.used); }
  }

  lemma CompleteRings(q: Vq, g: Gh, h: nat, n: nat)
    requires VqOk(q, g) && h in g.chains && g.chains[h].stage == Taken
    requires g.used < g.seen + NUM && q.usedIdx % NUM == g.used % NUM
    ensures AvailOk(DevComplete(q, h), DevCompleted(g, h), n) && UsedOk(DevComplete(q, h), DevCompleted(g, h), n)
  {
    assert AvailOk(q, g, n) && UsedOk(q, g, n);
    if g.seen <= n < g.used { SlotApart(n, g.used); }
  }

  /** The interrupt handler releases the buffer of a completed request, which was busy. */
  lemma IntrOk(q: Vq, g: Gh)
    requires VqOk(q, g) && q.seen != q.usedIdx
    ensures q.used[q.seen % NUM] == q.used[g.seen % NUM] && q.used[q.seen % NUM] < NUM
    ensures q.used[g.seen % NUM] in g.chains && g.chains[q.used[g.seen % NUM]].stage.Used?
    ensures q.info[q.used[g.seen % NUM]] in q.busy
    ensures g.chains[q.used[g.seen % NUM]].id in g.completed && g.chains[q.used[g.seen % NUM]].id !in g.released
    ensures VqOk(Intr(q), IntrDone(q, g))
  {
    hide Tables, Released;
    IndicesMean(q, g);
    WrapNext(g.seen);
    assert UsedOk(q, g, g.seen);
    var h := q.used[g.seen % NUM];
    assert ChainOk(q, g, h);
    IntrTables(q, g, h);
    IntrRest(q, g, h);
  }

  lemma IntrTables(q: Vq, g: Gh, h: nat)
    requires VqOk(q, g) && h in g.chains && h == q.used[g.seen % NUM] && h == q.used[q.seen % NUM] && h < NUM
    requires g.chains[h].id in g.completed && g.chains[h].id !in g.released
    ensures Tables(Intr(q), IntrDone(q, g)) && Released(IntrDone(q, g))
  {
    hide DescOk, AvailOk, UsedOk, ChainOk;
  }

  lemma IntrRest(q: Vq, g: Gh, h: nat)
    requires VqOk(q, g) && h in g.chains && h == q.used[g.seen % NUM] && h == q.used[q.seen % NUM] && h < NUM
    requires g.chains[h].stage == Used(g.seen)
    ensures forall x :: x in g.chains ==> ChainOk(Intr(q), IntrDone(q, g), x)
    ensures forall n: nat :: AvailOk(Intr(q), IntrDone(q, g), n) && UsedOk(Intr(q), IntrDone(q, g), n)
    ensures forall n: nat :: n < NUM ==> DescOk(Intr(q), IntrDone(q, g), n)
  {
    hide Tables;
    assert ChainOk(q, g, h);
    var r, t := Intr(q), IntrDone(q, g);
    forall x | x in t.chains ensures ChainOk(r, t, x) { assert ChainOk(q, g, x); }
    forall n: nat ensures AvailOk(r, t, n) && UsedOk(r, t, n) { assert AvailOk(q, g, n) && UsedOk(q, g, n); }
    forall n: nat | n < NUM ensures DescOk(r, t, n) { assert DescOk(q, g, n); }
  }

  /** Freeing the chain of a finished request frees its three descriptors and no others. */
  lemma FinishOk(q: Vq, g: Gh, h: nat)
    requires VqOk(q, g) && h in g.chains && g.chains[h].stage == Done
    ensures h < NUM && g.chains[h].d1 < NUM && g.chains[h].d2 < NUM
    ensures VqOk(Finish(q, h, g.chains[h].d1, g.chains[h].d2), Finished(g, h))
  {
    assert ChainOk(q, g, h);
    var c := g.chains[h];
    var r, t := Finish(q, h, c.d1, c.d2), Finished(g, h);
    forall x | x in t.chains ensures ChainOk(r, t, x) { FinishChain(q, g, h, x); }
    forall n: nat ensures AvailOk(r, t, n) && UsedOk(r, t, n) { assert AvailOk(q, g, n) && UsedOk(q, g, n); }
    forall n: nat | n < NUM ensures DescOk(r, t, n) { FinishDesc(q, g, h, n); }
  }

  lemma FinishChain(q: Vq, g: Gh, h: nat, x: nat)
    requires VqOk(q, g) && h in g.chains && x in g.chains && x != h && ChainOk(q, g, h)
    ensures ChainOk(Finish(q, h, g.chains[h].d1, g.chains[h].d2), Finished(g, h), x)
  {
    assert ChainOk(q, g, x);
  }

  lemma FinishDesc(q: Vq, g: Gh, h: nat, n: nat)
    requires VqOk(q, g) && h in g.chains && n < NUM && ChainOk(q, g, h)
    ensures DescOk(Finish(q, h, g.chains[h].d1, g.chains[h].d2), Finished(g, h), n)
  {
    assert DescOk(q, g, n);
  }

  // ----- interleavings -----

  datatype Event = SubmitEvent(i: nat, j: nat, k: nat, b: nat) | TakeEvent | CompleteEvent(h: nat) | IntrEvent | FinishEvent(h: nat)

  /** One step of a driver process, the device or the interrupt handler. */
  ghost predicate Step(q: Vq, g: Gh, e: Event, r: Vq, t: Gh)
    requires VqOk(q, g)
  {
    match e
    case SubmitEvent(i, j, k, b) =>
      && i < NUM && j < NUM && k < NUM && i != j && i != k && j != k && q.free[i] && q.free[j] && q.free[k]
      && b != 0 && b !in g.bufs && r == Submit(q, i, j, k, b) && t == Submitted(g, i, j, k, b)
    case TakeEvent => q.devSeen != q.availIdx && r == DevTake(q) && (TakeOk(q, g); t == DevTook(q, g))
    case CompleteEvent(h) =>
      h in g.chains && g.chains[h].stage == Taken && r == DevComplete(q, h) && t == DevCompleted(g, h)
    case IntrEvent => q.seen != q.usedIdx && (IntrOk(q, g); r == Intr(q) && t == IntrDone(q, g))
    case FinishEvent(h) =>
      && h in g.chains && g.chains[h].b !in q.busy
      && (HeadSmall(q, g, h); r == Finish(q, h, g.chains[h].d1, g.chains[h].d2) && t == Finished(g, h))
  }

  lemma StepOk(q: Vq, g: Gh, e: Event, r: Vq, t: Gh)
    requires VqOk(q, g) && Step(q, g, e, r, t)
    ensures VqOk(r, t) && g.released <= t.released && g.completed <= t.completed
  {
    hide VqOk;
    match e
    case SubmitEvent(i, j, k, b) => SubmitOk(q, g, i, j, k, b);
    case TakeEvent => TakeOk(q, g);
    case CompleteEvent(h) => CompleteOk(q, g, h);
    case IntrEvent => IntrOk(q, g);
    case FinishEvent(h) =>
      NotBusyDone(q, g, h);
      FinishOk(q, g, h);
  }

  lemma NotBusyDone(q: Vq, g: Gh, h: nat)
    requires VqOk(q, g) && h in g.chains && g.chains[h].b !in q.busy
    ensures g.chains[h].stage == Done
  {
    assert ChainOk(q, g, h);
  }

  ghost predicate Init(q: Vq, g: Gh) {
    && Sizes(q) && (forall i :: 0 <= i < NUM ==> q.free[i]) && q.busy == {}
    && q.availIdx == 0 && q.usedIdx == 0 && q.seen == 0 && q.devSeen == 0
    && g == Gh(map[], map[], map[], map[], 0, 0, 0, 0, {}, [])
  }

  ghost predicate Run(qs: seq<Vq>, gs: seq<Gh>, es: seq<Event>) {
    && |qs| == |es| + 1 && |gs| == |qs| && Init(qs[0], gs[0])
    && forall i :: 0 <= i < |es| ==> VqOk(qs[i], gs[i]) ==> Step(qs[i], gs[i], es[i], qs[i + 1], gs[i + 1])
  }

  /** In every state of every interleaving the protocol is respected. */
  lemma {:induction false} RunOk(qs: seq<Vq>, gs: seq<Gh>, es: seq<Event>, n: nat)
    requires Run(qs, gs, es) && n < |qs|
    ensures VqOk(qs[n], gs[n])
  {
    hide Step, VqOk;
    if n == 0 {
      InitOk(qs[0], gs[0]);
    } else {
      RunOk(qs, gs, es, n - 1);
      assert Step(qs[n - 1], gs[n - 1], es[n - 1], qs[n - 1 + 1], gs[n - 1 + 1]);
      StepOk(qs[n - 1], gs[n - 1], es[n - 1], qs[n], gs[n]);
    }
  }

  lemma InitOk(q: Vq, g: Gh)
    requires Init(q, g)
    ensures VqOk(q, g)
  {
  }

  /**
    Over every interleaving, no request's buffer is released twice or before its completion, and
    the descriptors split into free ones and the disjoint chains of the requests.
  */
  lemma ReleasedOnce(qs: seq<Vq>, gs: seq<Gh>, es: seq<Event>, n: nat)
    requires Run(qs, gs, es) && n < |qs|
    ensures forall k, l :: 0 <= k < l < |gs[n].released| ==> gs[n].released[k] != gs[n].released[l]
    ensures forall k :: 0 <= k < |gs[n].released| ==> gs[n].released[k] in gs[n].completed
    ensures Sizes(qs[n]) && forall i: nat :: i < NUM ==> DescOk(qs[n], gs[n], i)
    ensures forall h :: h in gs[n].chains ==> ChainOk(qs[n], gs[n], h)
  {
    hide Run, DescOk, ChainOk;
    RunOk(qs, gs, es, n);
  }

  // ----- the driver code -----

  ghost predicate AtMost(free: seq<bool>, a: nat, b: nat) {
    forall k :: 0 <= k < |free| && free[k] ==> k == a || k == b
  }

  /** Fewer than three descriptors are free. */
  ghost predicate Scarce(free: seq<bool>) { exists a, b :: AtMost(free, a, b) }

  class Driver {
    var q: Vq
    ghost var g: Gh

    /** alloc_desc(): the lowest free descriptor, or -1. */
    method AllocDesc() returns (i: int)
      requires Sizes(q)
      modifies `q
      ensures i == -1 ==> q == old(q) && forall k :: 0 <= k < NUM ==> !q.free[k]
      ensures i != -1 ==> 0 <= i < NUM && old(q).free[i] && q == old(q).(free := old(q).free[i := false])
      ensures i != -1 ==> forall k :: 0 <= k < i ==> !old(q).free[k]
    {
      i := 0;
      while i < NUM
        invariant 0 <= i <= NUM && q == old(q) && forall k :: 0 <= k < i ==> !q.free[k]
      {
        if q.free[i] {
          q := q.(free := q.free[i := false]);
          return;
        }
        i := i + 1;
      }
      i := -1;
    }

    /** free_desc() */
    method FreeDesc(i: nat)
      requires Sizes(q) && i < NUM && !q.free[i]
      modifies `q
      ensures q == old(q).(free := old(q).free[i := true], desc := old(q).desc[i := Desc(0, false)])
    {
      q := q.(free := q.free[i := true], desc := q.desc[i := Desc(0, false)]);
    }

    /** alloc3_desc(): three different free descriptors, or none at all. */
    method Alloc3() returns (ok: bool, i: nat, j: nat, k: nat)
      requires VqOk(q, g)
      modifies `q
      ensures !ok ==> q.(desc := old(q).desc) == old(q) && VqOk(q, g) && Scarce(old(q).free)
      ensures ok ==> i < NUM && j < NUM && k < NUM && i != j && i != k && j != k
      ensures ok ==> old(q).free[i] && old(q).free[j] && old(q).free[k]
      ensures ok ==> q == old(q).(free := old(q).free[i := false][j := false][k := false])
    {
      hide ChainOk, DescOk, AvailOk, UsedOk, Tables, Released;
      i, j, k := 0, 0, 0;
      var a := AllocDesc();
      if a == -1 {
        assert AtMost(q.free, 0, 0);
        return false, 0, 0, 0;
      }
      var b := AllocDesc();
      if b == -1 {
        assert AtMost(old(q).free, a, a) by {
          forall m | 0 <= m < NUM && old(q).free[m] ensures m == a { assert !q.free[m]; }
        }
        FreeDesc(a);
        PutBack(old(q), g, q, a, a);
        return false, 0, 0, 0;
      }
      var c := AllocDesc();
      if c == -1 {
        assert AtMost(old(q).free, a, b) by {
          forall m | 0 <= m < NUM && old(q).free[m] ensures m == a || m == b { assert !q.free[m]; }
        }
        FreeDesc(a);
        FreeDesc(b);
        PutBack(old(q), g, q, a, b);
        return false, 0, 0, 0;
      }
      return true, a, b, c;
    }

    /** virtio_disk_rw() up to the wait: false means that it has to sleep for descriptors. */
    method SubmitRequest(b: nat) returns (ok: bool, h: nat)
      requires VqOk(q, g) && b != 0 && b !in g.bufs
      modifies this
      ensures VqOk(q, g)
      ensures !ok ==> g == old(g) && q.(desc := old(q).desc) == old(q) && Scarce(old(q).free)
      ensures ok ==> h in g.chains && g.chains[h].b == b && b in q.busy && g.made == old(g).made + 1
      ensures ok ==> Step(old(q), old(g), SubmitEvent(h, g.chains[h].d1, g.chains[h].d2, b), q, g)
      ensures ok ==> Requested(old(q), q, h, g.chains[h].d1, g.chains[h].d2, b)
    {
      hide ChainOk, DescOk, AvailOk, UsedOk, Tables, Released;
      var i, j, k;
      ok, i, j, k := Alloc3();
      if !ok { return false, 0; }
      q := q.(desc := q.desc[i := Desc(j, true)]);
      q := q.(desc := q.desc[j := Desc(k, true)]);
      q := q.(desc := q.desc[k := Desc(0, false)]);
      q := q.(busy := q.busy + {b}, info := q.info[i := b]);
      q := q.(avail := q.avail[q.availIdx % NUM := i]);
      q := q.(availIdx := (q.availIdx + 1) % U16);
      SubmitOk(old(q), g, i, j, k, b);
      g := Submitted(g, i, j, k, b);
      h := i;
    }

    /** The end of virtio_disk_rw(), once b->disk is 0. */
    method FinishRequest(h: nat)
      requires VqOk(q, g) && h in g.chains && g.chains[h].b !in q.busy
      modifies this
      ensures VqOk(q, g) && Step(old(q), old(g), FinishEvent(h), q, g)
      ensures Returned(old(q), q, h, old(g).chains[h].d1, old(g).chains[h].d2)
    {
      hide DescOk, AvailOk, UsedOk, Tables, Released;
      NotBusyDone(q, g, h);
      FinishOk(q, g, h);
      ChainLinked(q, g, h);
      q := q.(info := q.info[h := 0]);
      FreeChain(h, g.chains[h].d1, g.chains[h].d2);
      g := Finished(g, h);
    }

    /** free_chain(): follow the links of the chain. */
    method FreeChain(h: nat, ghost j: nat, ghost k: nat)
      requires Sizes(q) && h < NUM && j < NUM && k < NUM && h != j && h != k && j != k
      requires !q.free[h] && !q.free[j] && !q.free[k]
      requires q.desc[h] == Desc(j, true) && q.desc[j] == Desc(k, true) && !q.desc[k].more
      modifies `q
      ensures q == Finish(old(q), h, j, k).(info := old(q).info)
    {
      var i := h;
      ghost var n := 0;
      while true
        invariant 0 <= n <= 2 && i == (if n == 0 then h else if n == 1 then j else k)
        invariant n == 0 ==> q == old(q)
        invariant n == 1 ==> q == old(q).(free := old(q).free[h := true], desc := old(q).desc[h := Desc(0, false)])
        invariant n == 2 ==> q == old(q).(free := old(q).free[h := true][j := true],
                                          desc := old(q).desc[h := Desc(0, false)][j := Desc(0, false)])
        decreases 2 - n
      {
        var flag, nxt := q.desc[i].more, q.desc[i].next;
        FreeDesc(i);
        if !flag { break; }
        i := nxt;
        n := n + 1;
      }
    }

    /**
      virtio_disk_intr(): exactly the buffers of the completed requests are released, and the driver
      has seen all used entries. Descriptors, requests and rings stay as they are.
    */
    method Interrupt() returns (ghost qs: seq<Vq>, ghost gs: seq<Gh>)
      requires VqOk(q, g)
      modifies this
      ensures VqOk(q, g) && q == old(q).(busy := q.busy, seen := old(q).usedIdx)
      ensures forall b :: b in q.busy <==> b in old(q).busy && !DoneFor(old(q), old(g), old(g).used, b)
      ensures g.chains.Keys == old(g).chains.Keys
      ensures |g.released| == |old(g).released| + (old(g).used - old(g).seen) && old(g).released <= g.released
      ensures Rounds(qs, gs) && |qs| == old(g).used - old(g).seen + 1
      ensures qs[0] == old(q) && gs[0] == old(g) && qs[|qs| - 1] == q && gs[|qs| - 1] == g
    {
      hide VqOk, Step, Round, DoneFor;
      ghost var q0, g0 := q, g;
      Pending(q, g);
      qs, gs := [q], [g];
      NoneFinished(q, g);
      while q.seen != q.usedIdx
        invariant VqOk(q, g) && g0.seen <= g.seen <= g.used == g0.used && g0.released <= g.released
        invariant q == q0.(busy := q.busy, seen := q.seen) && g.chains.Keys == g0.chains.Keys
        invariant forall b :: b in q.busy <==> b in q0.busy && !DoneFor(q0, g0, g.seen, b)
        invariant |g.released| == |g0.released| + (g.seen - g0.seen)
        invariant Rounds(qs, gs) && |qs| == g.seen - g0.seen + 1
        invariant qs[0] == q0 && gs[0] == g0 && qs[|qs| - 1] == q && gs[|qs| - 1] == g
        decreases g.used - g.seen
      {
        Pending(q, g);
        IntrOk(q, g);
        ghost var q1 := q;
        OneRound(q, g, q0, g0, q.info[q.used[q.seen % NUM]]);
        var id := q.used[q.seen % NUM];
        var b := q.info[id];
        q := q.(busy := q.busy - {b});
        q := q.(seen := (q.seen + 1) % U16);
        g := IntrDone(q1, g);
        RoundsMore(qs, gs, q, g);
        qs, gs := qs + [q], gs + [g];
      }
      Pending(q, g);
    }
  }

  /** A request was put into three free descriptors and into the avail ring, and nothing else changed. */
  ghost predicate Requested(q: Vq, r: Vq, i: nat, j: nat, k: nat, b: nat) {
    && Sizes(q) && Sizes(r) && i < NUM && j < NUM && k < NUM && q.free[i] && q.free[j] && q.free[k]
    && (forall d: nat :: d < NUM ==> r.free[d] == (q.free[d] && d != i && d != j && d != k))
    && (forall d: nat :: d < NUM && d != i && d != j && d != k ==> r.desc[d] == q.desc[d])
    && r.desc[i] == Desc(j, true) && r.desc[j] == Desc(k, true) && !r.desc[k].more
    && r.info == q.info[i := b] && r.busy == q.busy + {b} && r.avail == q.avail[q.availIdx % NUM := i]
    && r.availIdx == (q.availIdx + 1) % U16 && r.used == q.used && r.usedIdx == q.usedIdx && r.seen == q.seen && r.devSeen == q.devSeen
  }

  /** The three descriptors of a request are free again, it has no buffer any more, and nothing else changed. */
  ghost predicate Returned(q: Vq, r: Vq, i: nat, j: nat, k: nat) {
    && Sizes(q) && Sizes(r) && i < NUM
    && (forall d: nat :: d < NUM ==> r.free[d] == (q.free[d] || d == i || d == j || d == k))
    && (forall d: nat :: d < NUM && d != i && d != j && d != k ==> r.desc[d] == q.desc[d])
    && r == q.(free := r.free, desc := r.desc, info := q.info[i := 0])
  }

  /** Buffer b belongs to one of the used entries that the driver had not seen, up to entry e. */
  ghost predicate DoneFor(q: Vq, g: Gh, e: nat, b: nat)
    requires Sizes(q)
  {
    exists k: nat :: g.seen <= k < e && UsedFor(q, k, b)
  }

  /** Used entry k is for a request with buffer b. */
  predicate UsedFor(q: Vq, k: nat, b: nat)
    requires Sizes(q)
  {
    q.used[k % NUM] < NUM && q.info[q.used[k % NUM]] == b
  }

  lemma OneMoreUsed(q: Vq, g: Gh, e: nat, b: nat, x: nat)
    requires Sizes(q) && g.seen <= e && UsedFor(q, e, b)
    ensures DoneFor(q, g, e + 1, x) <==> DoneFor(q, g, e, x) || x == b
  {
    assert UsedFor(q, e, x) <==> x == b;
    hide UsedFor;
    if DoneFor(q, g, e + 1, x) {
      var k: nat :| g.seen <= k < e + 1 && UsedFor(q, k, x);
    }
    if DoneFor(q, g, e, x) {
      var k: nat :| g.seen <= k < e && UsedFor(q, k, x);
    }
  }

  ghost predicate Round(q: Vq, g: Gh, r: Vq, t: Gh) { VqOk(q, g) && Step(q, g, IntrEvent, r, t) }

  lemma NoneFinished(q: Vq, g: Gh)
    requires Sizes(q)
    ensures forall b :: !DoneFor(q, g, g.seen, b)
  {
  }

  /** Each state follows from the one before by one round of the handler. */
  ghost predicate Rounds(qs: seq<Vq>, gs: seq<Gh>) {
    |qs| == |gs| > 0 && forall n :: 0 <= n < |qs| - 1 ==> Round(qs[n], gs[n], qs[n + 1], gs[n + 1])
  }

  lemma RoundsMore(qs: seq<Vq>, gs: seq<Gh>, q: Vq, g: Gh)
    requires Rounds(qs, gs) && Round(qs[|qs| - 1], gs[|qs| - 1], q, g)
    ensures Rounds(qs + [q], gs + [g])
  {
    hide Round;
    forall n | 0 <= n < |qs| ensures Round((qs + [q])[n], (gs + [g])[n], (qs + [q])[n + 1], (gs + [g])[n + 1]) {
      if n < |qs| - 1 { assert Round(qs[n], gs[n], qs[n + 1], gs[n + 1]); }
    }
  }

  /** One round of the handler releases the buffer of the next used entry. */
  lemma OneRound(q: Vq, g: Gh, q0: Vq, g0: Gh, b: nat)
    requires VqOk(q, g) && q.seen != q.usedIdx && Sizes(q0) && q0.used == q.used && q0.info == q.info && g0.seen <= g.seen
    requires Sizes(q) && q.used[q.seen % NUM] < NUM && b == q.info[q.used[q.seen % NUM]]
    ensures q.used[g.seen % NUM] in g.chains && Round(q, g, Intr(q), IntrDone(q, g))
    ensures IntrDone(q, g).seen == g.seen + 1 && IntrDone(q, g).used == g.used && IntrDone(q, g).chains.Keys == g.chains.Keys
    ensures forall x: nat :: DoneFor(q0, g0, g.seen + 1, x) <==> DoneFor(q0, g0, g.seen, x) || x == b
  {
    hide VqOk, DoneFor;
    IntrOk(q, g);
    assert q0.used[g.seen % NUM] == q.used[q.seen % NUM];
    assert UsedFor(q0, g.seen, b);
    hide UsedFor;
    forall x: nat ensures DoneFor(q0, g0, g.seen + 1, x) <==> DoneFor(q0, g0, g.seen, x) || x == b {
      OneMoreUsed(q0, g0, g.seen, b, x);
    }
  }

  lemma ChainLinked(q: Vq, g: Gh, h: nat)
    requires VqOk(q, g) && h in g.chains
    ensures var c := g.chains[h];
            && h < NUM && c.d1 < NUM && c.d2 < NUM && h != c.d1 && h != c.d2 && c.d1 != c.d2
            && !q.free[h] && !q.free[c.d1] && !q.free[c.d2]
            && q.desc[h] == Desc(c.d1, true) && q.desc[c.d1] == Desc(c.d2, true) && !q.desc[c.d2].more
  {
    assert ChainOk(q, g, h) && DescOk(q, g, h) && DescOk(q, g, g.chains[h].d1) && DescOk(q, g, g.chains[h].d2);
  }

  lemma Pending(q: Vq, g: Gh)
    requires VqOk(q, g)
    ensures Sizes(q) && g.seen <= g.used && (q.seen != q.usedIdx <==> g.seen < g.used)
  {
    IndicesMean(q, g);
  }

  /** Descriptors that were taken and put back leave the protocol as it was. */
  lemma PutBack(q: Vq, g: Gh, r: Vq, a: nat, b: nat)
    requires VqOk(q, g) && a < NUM && b < NUM && q.free[a] && q.free[b] && |r.desc| == NUM
    requires r == q.(free := q.free, desc := r.desc) && forall i :: 0 <= i < NUM && i != a && i != b ==> r.desc[i] == q.desc[i]
    ensures VqOk(r, g)
  {
    FreshHead(q, g, a);
    FreshHead(q, g, b);
    forall h | h in g.chains ensures ChainOk(r, g, h) { assert ChainOk(q, g, h); }
    forall n: nat ensures AvailOk(r, g, n) && UsedOk(r, g, n) { assert AvailOk(q, g, n) && UsedOk(q, g, n); }
    forall n: nat | n < NUM ensures DescOk(r, g, n) { assert DescOk(q, g, n); }
  }
}
