/**
  The Kernighan and Ritchie allocator of user/umalloc.c.

  Addresses count in units of sizeof(Header). The free list is circular and ordered by
  address; `base` is the zero-sized header it starts from, below every address sbrk returns.
*/
module Umalloc {

  datatype Blk = Blk(addr: int, size: nat)

  /** The two fields of every header in memory, and the allocator's roving pointer. */
  datatype Mem = Mem(ptr: map<int, int>, size: map<int, nat>, freep: int)

  // ----- the abstract free list -----

  predicate Has(b: Blk, u: int) { b.addr <= u < b.addr + b.size }

  /** Unit u lies in one of the blocks. */
  ghost predicate Covers(L: seq<Blk>, u: int) { exists i :: 0 <= i < |L| && Has(L[i], u) }

  /** Ordered by address, disjoint, and coalesced: a gap follows every block. */
  ghost predicate Coalesced(L: seq<Blk>) {
    forall i, j :: 0 <= i < j < |L| ==> L[i].addr + L[i].size < L[j].addr
  }

  ghost predicate WellFormed(base: int, L: seq<Blk>) {
    && |L| >= 1 && L[0] == Blk(base, 0)
    && (forall i :: 0 <= i < |L| ==> L[i].addr == base || L[i].size >= 1)
    && Coalesced(L)
  }

  function Next(L: seq<Blk>, i: nat): (k: nat)
    requires i < |L|
    ensures k < |L|
  {
    if i + 1 < |L| then i + 1 else 0
  }

  ghost predicate LinkAt(m: Mem, L: seq<Blk>, i: nat)
    requires i < |L|
  {
    && L[i].addr in m.ptr && L[i].addr in m.size
    && m.size[L[i].addr] == L[i].size
    && m.ptr[L[i].addr] == L[Next(L, i)].addr
  }

  /** The headers in memory form the circular list L. */
  ghost predicate Linked(m: Mem, L: seq<Blk>) {
    forall i :: 0 <= i < |L| ==> LinkAt(m, L, i)
  }

  ghost predicate Distinct(L: seq<Blk>) {
    forall i, j :: 0 <= i < j < |L| ==> L[i].addr != L[j].addr
  }

  /** Block b lies strictly between the j-th block and its successor. */
  ghost predicate Fits(L: seq<Blk>, j: nat, b: Blk) {
    && j < |L|
    && L[j].addr + L[j].size <= b.addr && L[j].addr < b.addr
    && (j + 1 < |L| ==> b.addr + b.size <= L[j + 1].addr)
  }

  /** Does block b end where the successor of the j-th block begins? */
  predicate MeetsRight(L: seq<Blk>, j: nat, b: Blk)
    requires j < |L|
  {
    j + 1 < |L| && b.addr + b.size == L[j + 1].addr
  }

  /** Block b with its right neighbour, when they meet. */
  function Joined(L: seq<Blk>, j: nat, b: Blk): (b': Blk)
    requires j < |L|
  {
    if MeetsRight(L, j, b) then Blk(b.addr, b.size + L[j + 1].size) else b
  }

  /** The blocks after the joined one. */
  function Rest(L: seq<Blk>, j: nat, b: Blk): (R: seq<Blk>)
    requires j < |L|
  {
    if MeetsRight(L, j, b) then L[j + 2..] else L[j + 1..]
  }

  /** What free() makes of the list: insert after position j and merge with both neighbours. */
  function Insert(L: seq<Blk>, j: nat, b: Blk): (R: seq<Blk>)
    requires j < |L|
  {
    if L[j].addr + L[j].size == b.addr
    then L[..j] + [Blk(L[j].addr, L[j].size + Joined(L, j, b).size)] + Rest(L, j, b)
    else L[..j + 1] + [Joined(L, j, b)] + Rest(L, j, b)
  }

  /** What malloc() makes of the list: the tail end of block i goes, or all of it. */
  function Take(L: seq<Blk>, i: nat, n: nat): (R: seq<Blk>)
    requires i < |L| && n <= L[i].size
  {
    if L[i].size == n then L[..i] + L[i + 1..] else L[i := Blk(L[i].addr, L[i].size - n)]
  }

  /** A block that leaves a gap on both sides can stand between two coalesced lists. */
  lemma Sandwich(A: seq<Blk>, x: Blk, B: seq<Blk>)
    requires Coalesced(A) && Coalesced(B)
    requires forall i :: 0 <= i < |A| ==> A[i].addr + A[i].size < x.addr
    requires forall i :: 0 <= i < |B| ==> x.addr + x.size < B[i].addr
    ensures Coalesced(A + [x] + B)
  {
    var R := A + [x] + B;
    forall i, j | 0 <= i < j < |R| ensures R[i].addr + R[i].size < R[j].addr {
      if i < |A| < j { assert R[j] == B[j - |A| - 1]; }
      if |A| < i { assert R[i] == B[i - |A| - 1] && R[j] == B[j - |A| - 1]; }
    }
  }

  lemma RestFollows(L: seq<Blk>, j: nat, b: Blk)
    requires Coalesced(L) && Fits(L, j, b)
    ensures Coalesced(Rest(L, j, b))
    ensures forall i :: 0 <= i < |Rest(L, j, b)| ==>
              Joined(L, j, b).addr + Joined(L, j, b).size < Rest(L, j, b)[i].addr
  {
    var k := if MeetsRight(L, j, b) then j + 2 else j + 1;
    forall i | k <= i < |L| ensures Joined(L, j, b).addr + Joined(L, j, b).size < L[i].addr {
      assert j + 1 < |L|;
      if j + 1 < i { assert L[j + 1].addr + L[j + 1].size < L[i].addr; }
    }
  }

  lemma FrontPrecedes(L: seq<Blk>, j: nat, b: Blk)
    requires Coalesced(L) && Fits(L, j, b)
    ensures Coalesced(L[..j]) && Coalesced(L[..j + 1])
    ensures forall i :: 0 <= i < j ==> L[i].addr + L[i].size < L[j].addr
    ensures L[j].addr + L[j].size != b.addr ==> forall i :: 0 <= i <= j ==> L[i].addr + L[i].size < b.addr
  {
  }

  lemma InsertCoalesced(L: seq<Blk>, j: nat, b: Blk)
    requires Coalesced(L) && Fits(L, j, b)
    ensures Coalesced(Insert(L, j, b))
  {
    RestFollows(L, j, b);
    FrontPrecedes(L, j, b);
    if L[j].addr + L[j].size == b.addr {
      Sandwich(L[..j], Blk(L[j].addr, L[j].size + Joined(L, j, b).size), Rest(L, j, b));
    } else {
      Sandwich(L[..j + 1], Joined(L, j, b), Rest(L, j, b));
    }
  }

  lemma InsertWellFormed(base: int, L: seq<Blk>, j: nat, b: Blk)
    requires WellFormed(base, L) && Fits(L, j, b) && b.size >= 1 && base < b.addr
    ensures WellFormed(base, Insert(L, j, b))
  {
    InsertCoalesced(L, j, b);
    var R, rest := Insert(L, j, b), Rest(L, j, b);
    assert j == 0 ==> L[j].addr + L[j].size != b.addr;
    forall i | 0 <= i < |R| ensures R[i].addr == base || R[i].size >= 1 {
      if i >= |R| - |rest| { assert R[i] == rest[i - (|R| - |rest|)]; }
    }
  }

  lemma InsertKeeps(L: seq<Blk>, j: nat, b: Blk, u: int)
    requires j < |L| && (Covers(L, u) || Has(b, u))
    ensures Covers(Insert(L, j, b), u)
  {
    var R := Insert(L, j, b);
    var right := MeetsRight(L, j, b);
    var left := L[j].addr + L[j].size == b.addr;
    if Has(b, u) {
      assert Has(R[if left then j else j + 1], u);
    } else {
      var i :| 0 <= i < |L| && Has(L[i], u);
      var k := if i <= j then i else i + (if left then 0 else 1) - (if right then 1 else 0);
      assert Has(R[k], u);
    }
  }

  lemma InsertAddsOnly(L: seq<Blk>, j: nat, b: Blk, u: int)
    requires j < |L| && Covers(Insert(L, j, b), u)
    ensures Covers(L, u) || Has(b, u)
  {
    var R := Insert(L, j, b);
    var right := MeetsRight(L, j, b);
    var left := L[j].addr + L[j].size == b.addr;
    var k :| 0 <= k < |R| && Has(R[k], u);
    var m := if left then j else j + 1;
    if k < m {
      assert Has(L[k], u);
    } else if k > m {
      assert Has(L[k - (if left then 0 else 1) + (if right then 1 else 0)], u);
    } else if !Has(b, u) {
      assert (left && Has(L[j], u)) || (right && Has(L[j + 1], u));
    }
  }

  /** free() adds the units of the block and no others. */
  lemma InsertCovers(L: seq<Blk>, j: nat, b: Blk, u: int)
    requires j < |L|
    ensures Covers(Insert(L, j, b), u) <==> Covers(L, u) || Has(b, u)
  {
    if Covers(L, u) || Has(b, u) { InsertKeeps(L, j, b, u); }
    if Covers(Insert(L, j, b), u) { InsertAddsOnly(L, j, b, u); }
  }

  lemma TakeWellFormed(base: int, L: seq<Blk>, i: nat, n: nat)
    requires WellFormed(base, L) && 1 <= i < |L| && n <= L[i].size
    ensures WellFormed(base, Take(L, i, n))
  {
  }

  lemma TakeKeeps(L: seq<Blk>, i: nat, n: nat, u: int)
    requires i < |L| && n <= L[i].size && Covers(L, u)
    requires !Has(Blk(L[i].addr + (L[i].size - n), n), u)
    ensures Covers(Take(L, i, n), u)
  {
    var R := Take(L, i, n);
    var k :| 0 <= k < |L| && Has(L[k], u);
    assert Has(R[if L[i].size == n && k > i then k - 1 else k], u);
  }

  lemma TakeRemoves(L: seq<Blk>, i: nat, n: nat, u: int)
    requires Coalesced(L) && i < |L| && n <= L[i].size && Covers(Take(L, i, n), u)
    ensures Covers(L, u) && !Has(Blk(L[i].addr + (L[i].size - n), n), u)
  {
    var R := Take(L, i, n);
    var k :| 0 <= k < |R| && Has(R[k], u);
    var k' := if L[i].size == n && k >= i then k + 1 else k;
    assert Has(L[k'], u);
    if k' < i { assert L[k'].addr + L[k'].size < L[i].addr; }
    if k' > i { assert L[i].addr + L[i].size < L[k'].addr; }
  }

  /** malloc() removes the units it hands out and no others. */
  lemma TakeCovers(base: int, L: seq<Blk>, i: nat, n: nat, u: int)
    requires WellFormed(base, L) && 1 <= i < |L| && n <= L[i].size
    ensures var b := Blk(L[i].addr + (L[i].size - n), n);
            Covers(Take(L, i, n), u) <==> Covers(L, u) && !Has(b, u)
  {
    if Covers(L, u) && !Has(Blk(L[i].addr + (L[i].size - n), n), u) { TakeKeeps(L, i, n, u); }
    if Covers(Take(L, i, n), u) { TakeRemoves(L, i, n, u); }
  }

  // ----- the list in memory -----

  /** The header stores of free(), once the position p is found. */
  function FreeMem(m: Mem, p: int, bp: int): (r: Mem)
    requires p in m.ptr && m.ptr[p] in m.ptr && m.ptr[p] in m.size && p in m.size && bp in m.size
  {
    var nx := m.ptr[p];
    var m1 := if bp + m.size[bp] == nx
              then Mem(m.ptr[bp := m.ptr[nx]], m.size[bp := m.size[bp] + m.size[nx]], m.freep)
              else Mem(m.ptr[bp := nx], m.size, m.freep);
    if p + m1.size[p] == bp
    then Mem(m1.ptr[p := m1.ptr[bp]], m1.size[p := m1.size[p] + m1.size[bp]], p)
    else Mem(m1.ptr[p := bp], m1.size, p)
  }

  ghost predicate FreeAt(base: int, m: Mem, L: seq<Blk>, j: nat, b: Blk) {
    && WellFormed(base, L) && Linked(m, L) && Fits(L, j, b) && base < b.addr
    && b.addr in m.size && m.size[b.addr] == b.size >= 1
    && forall i :: 0 <= i < |L| ==> L[i].addr != b.addr
  }

  function SpliceMem(m: Mem, p: int, bp: int): (r: Mem)
    requires p in m.ptr
  {
    m.(ptr := m.ptr[bp := m.ptr[p]][p := bp])
  }

  function SwallowMem(m: Mem, a: int, c: int): (r: Mem)
    requires a in m.size && c in m.size && c in m.ptr
  {
    m.(ptr := m.ptr[a := m.ptr[c]], size := m.size[a := m.size[a] + m.size[c]])
  }

  /** free()'s stores are a splice and up to two merges. */
  lemma FreeMemSteps(m: Mem, p: int, bp: int)
    requires p in m.ptr && m.ptr[p] in m.ptr && m.ptr[p] in m.size && p in m.size && bp in m.size
    requires p != bp && m.ptr[p] != bp && (bp + m.size[bp] == m.ptr[p] ==> m.ptr[p] != p)
    ensures var s := SpliceMem(m, p, bp);
            var t := if bp + m.size[bp] == m.ptr[p] then SwallowMem(s, bp, m.ptr[p]) else s;
            FreeMem(m, p, bp) == (if p + m.size[p] == bp then SwallowMem(t, p, bp) else t).(freep := p)
  {
    var s := SpliceMem(m, p, bp);
    var t := if bp + m.size[bp] == m.ptr[p] then SwallowMem(s, bp, m.ptr[p]) else s;
    var r := if p + m.size[p] == bp then SwallowMem(t, p, bp) else t;
    assert FreeMem(m, p, bp).ptr == r.ptr;
    assert FreeMem(m, p, bp).size == r.size;
  }

  /** Two stores splice a header in after the j-th. */
  lemma SpliceLinks(m: Mem, L: seq<Blk>, j: nat, b: Blk)
    requires Linked(m, L) && Distinct(L) && j < |L| && b.addr in m.size && m.size[b.addr] == b.size
    requires forall i :: 0 <= i < |L| ==> L[i].addr != b.addr
    ensures LinkAt(m, L, j)
    ensures var R := L[..j + 1] + [b] + L[j + 1..];
            && Linked(SpliceMem(m, L[j].addr, b.addr), R)
            && Distinct(R)
  {
    var R := L[..j + 1] + [b] + L[j + 1..];
    assert LinkAt(m, L, j);
    var r := SpliceMem(m, L[j].addr, b.addr);
    forall i | 0 <= i < |R| ensures LinkAt(r, R, i) {
      if i <= j { assert R[i] == L[i] && LinkAt(m, L, i); }
      if i > j + 1 { assert R[i] == L[i - 1] && LinkAt(m, L, i - 1); }
    }
  }

  function MergeAt(L: seq<Blk>, i: nat): (R: seq<Blk>)
    requires i + 1 < |L|
  {
    L[..i] + [Blk(L[i].addr, L[i].size + L[i + 1].size)] + L[i + 2..]
  }

  /** Two stores make the i-th header swallow its successor. */
  lemma MergeLinks(m: Mem, L: seq<Blk>, i: nat)
    requires Linked(m, L) && Distinct(L) && i + 1 < |L|
    ensures LinkAt(m, L, i) && LinkAt(m, L, i + 1)
    ensures var a, c := L[i].addr, L[i + 1].addr;
            && Linked(SwallowMem(m, a, c), MergeAt(L, i))
            && Distinct(MergeAt(L, i))
  {
    var R := MergeAt(L, i);
    var a, c := L[i].addr, L[i + 1].addr;
    assert LinkAt(m, L, i) && LinkAt(m, L, i + 1);
    var r := SwallowMem(m, a, c);
    forall k | 0 <= k < |R| ensures LinkAt(r, R, k) {
      if k < i { assert R[k] == L[k] && LinkAt(m, L, k); }
      if k > i { assert R[k] == L[k + 1] && LinkAt(m, L, k + 1); }
    }
  }

  /** The list and the headers after the splice and the merge with the right neighbour. */
  function Half(L: seq<Blk>, j: nat, b: Blk): (T: seq<Blk>)
    requires j < |L|
  {
    var S := L[..j + 1] + [b] + L[j + 1..];
    if MeetsRight(L, j, b) then MergeAt(S, j + 1) else S
  }

  lemma MergeMid(A: seq<Blk>, x: Blk, y: Blk, B: seq<Blk>)
    ensures MergeAt(A + [x, y] + B, |A|) == A + [Blk(x.addr, x.size + y.size)] + B
  {
    var L := A + [x, y] + B;
    assert L[..|A|] == A && L[|A| + 2..] == B;
  }

  lemma HalfIs(L: seq<Blk>, j: nat, b: Blk)
    requires j < |L|
    ensures Half(L, j, b) == L[..j + 1] + [Joined(L, j, b)] + Rest(L, j, b)
  {
    if MeetsRight(L, j, b) {
      assert L[j + 1..] == [L[j + 1]] + L[j + 2..];
      assert L[..j + 1] + [b] + L[j + 1..] == L[..j + 1] + [b, L[j + 1]] + L[j + 2..];
      MergeMid(L[..j + 1], b, L[j + 1], L[j + 2..]);
    }
  }

  lemma InsertSteps(L: seq<Blk>, j: nat, b: Blk)
    requires j < |L|
    ensures |Half(L, j, b)| > j + 1
    ensures Insert(L, j, b) == if L[j].addr + L[j].size == b.addr then MergeAt(Half(L, j, b), j) else Half(L, j, b)
  {
    HalfIs(L, j, b);
    var x, B := Joined(L, j, b), Rest(L, j, b);
    assert L[..j + 1] == L[..j] + [L[j]];
    assert Half(L, j, b) == L[..j] + [L[j], x] + B;
    MergeMid(L[..j], L[j], x, B);
  }

  /** The roving pointer is not part of the list structure. */
  lemma LinkedRove(m: Mem, L: seq<Blk>, p: int)
    requires Linked(m, L)
    ensures Linked(m.(freep := p), L)
  {
    forall i | 0 <= i < |L| ensures LinkAt(m.(freep := p), L, i) { assert LinkAt(m, L, i); }
  }

  lemma CoalescedDistinct(L: seq<Blk>)
    requires Coalesced(L)
    ensures Distinct(L)
  {
  }

  function HalfMem(m: Mem, p: int, bp: int): (t: Mem)
    requires p in m.ptr && m.ptr[p] in m.ptr && m.ptr[p] in m.size && bp in m.size
  {
    var s := SpliceMem(m, p, bp);
    if bp + m.size[bp] == m.ptr[p] then SwallowMem(s, bp, m.ptr[p]) else s
  }

  lemma HalfLinks(base: int, m: Mem, L: seq<Blk>, j: nat, b: Blk)
    requires FreeAt(base, m, L, j, b) && LinkAt(m, L, j) && LinkAt(m, L, Next(L, j))
    ensures Linked(HalfMem(m, L[j].addr, b.addr), Half(L, j, b)) && Distinct(Half(L, j, b))
  {
    var p, bp := L[j].addr, b.addr;
    CoalescedDistinct(L);
    SpliceLinks(m, L, j, b);
    assert bp + m.size[bp] == m.ptr[p] <==> MeetsRight(L, j, b) by { assert L[0].addr == base; }
    if MeetsRight(L, j, b) {
      MergeLinks(SpliceMem(m, p, bp), L[..j + 1] + [b] + L[j + 1..], j + 1);
    }
  }

  /** The stores of free() link the merged list. */
  lemma FreeLinks(base: int, m: Mem, L: seq<Blk>, j: nat, b: Blk)
    requires FreeAt(base, m, L, j, b)
    ensures LinkAt(m, L, j) && LinkAt(m, L, Next(L, j))
    ensures Linked(FreeMem(m, L[j].addr, b.addr), Insert(L, j, b))
  {
    var p, bp := L[j].addr, b.addr;
    assert LinkAt(m, L, j) && LinkAt(m, L, Next(L, j));
    InsertSteps(L, j, b);
    FreeMemSteps(m, p, bp);
    HalfLinks(base, m, L, j, b);
    var T, t := Half(L, j, b), HalfMem(m, p, bp);
    if p + m.size[p] == bp {
      MergeLinks(t, T, j);
      LinkedRove(SwallowMem(t, p, bp), MergeAt(T, j), p);
    } else {
      LinkedRove(t, T, p);
    }
  }

  /** The header stores of malloc() for the block p found after prevp. */
  function TakeMem(m: Mem, prevp: int, p: int, n: nat): (r: Mem)
    requires prevp in m.ptr && p in m.ptr && p in m.size && n <= m.size[p]
  {
    if m.size[p] == n then Mem(m.ptr[prevp := m.ptr[p]], m.size, prevp)
    else
      var rest := m.size[p] - n;
      Mem(m.ptr, m.size[p := rest][p + rest := n], prevp)
  }

  lemma TakeLinks(base: int, m: Mem, L: seq<Blk>, i: nat, h: nat, n: nat)
    requires WellFormed(base, L) && Linked(m, L) && h < |L| && i == Next(L, h) && 1 <= i && 1 <= n <= L[i].size
    ensures LinkAt(m, L, h) && LinkAt(m, L, i)
    ensures Linked(TakeMem(m, L[h].addr, L[i].addr, n), Take(L, i, n))
  {
    assert LinkAt(m, L, h) && LinkAt(m, L, i);
    CoalescedDistinct(L);
    if L[i].size == n { UnlinkLinks(m, L, i); } else { CarveLinks(m, L, i, h, n); }
  }

  /** Taking a whole block unlinks its header. */
  lemma UnlinkLinks(m: Mem, L: seq<Blk>, i: nat)
    requires Linked(m, L) && Distinct(L) && 1 <= i < |L| && LinkAt(m, L, i - 1) && LinkAt(m, L, i)
    ensures Linked(TakeMem(m, L[i - 1].addr, L[i].addr, L[i].size), L[..i] + L[i + 1..])
  {
    var R, r := L[..i] + L[i + 1..], TakeMem(m, L[i - 1].addr, L[i].addr, L[i].size);
    forall k | 0 <= k < |R| ensures LinkAt(r, R, k) {
      if k < i { assert R[k] == L[k] && LinkAt(m, L, k); } else { assert R[k] == L[k + 1] && LinkAt(m, L, k + 1); }
    }
  }

  /** Carving the tail end off a block changes only its size and writes a header inside it. */
  lemma CarveLinks(m: Mem, L: seq<Blk>, i: nat, h: nat, n: nat)
    requires Linked(m, L) && Coalesced(L) && Distinct(L) && h < |L| && i < |L|
    requires LinkAt(m, L, h) && LinkAt(m, L, i) && 1 <= n < L[i].size
    ensures Linked(TakeMem(m, L[h].addr, L[i].addr, n), L[i := Blk(L[i].addr, L[i].size - n)])
  {
    var R, r := L[i := Blk(L[i].addr, L[i].size - n)], TakeMem(m, L[h].addr, L[i].addr, n);
    forall k | 0 <= k < |R| ensures LinkAt(r, R, k) {
      assert LinkAt(m, L, k);
      assert L[k].addr != L[i].addr + (L[i].size - n);
    }
  }

  // ----- who owns which unit -----

  /** Free list, blocks handed out, units obtained from sbrk, and the index freep stands at. */
  datatype Arena = Arena(L: seq<Blk>, live: set<Blk>, granted: set<int>, k: nat)

  ghost predicate Alive(live: set<Blk>, u: int) { exists x :: x in live && Has(x, u) }

  ghost function Units(b: Blk): set<int> {
    set u | b.addr <= u < b.addr + b.size && Has(b, u)
  }

  /** Every unit sbrk ever granted is in exactly one block, free or live. */
  ghost predicate Owned(base: int, a: Arena) {
    && (forall u :: u in a.granted <==> Covers(a.L, u) || Alive(a.live, u))
    && (forall u :: Covers(a.L, u) ==> !Alive(a.live, u))
    && (forall x, y, u :: x in a.live && y in a.live && Has(x, u) && Has(y, u) ==> x == y)
    && (forall x :: x in a.live ==> x.size >= 1)
    && (forall u :: u in a.granted ==> u > base)
  }

  /** Where the search of free() ends: the last block below bp. */
  ghost function Slot(L: seq<Blk>, bp: int, n: nat): (j: nat)
    requires 1 <= n <= |L| && L[0].addr < bp
    ensures j < n && L[j].addr < bp && forall i :: j < i < n ==> L[i].addr >= bp
  {
    if n == 1 || L[n - 1].addr < bp then n - 1 else Slot(L, bp, n - 1)
  }

  ghost function FreeSpec(a: Arena, b: Blk): (r: Arena)
    requires |a.L| >= 1 && a.L[0].addr < b.addr
  {
    var j := Slot(a.L, b.addr, |a.L|);
    Arena(Insert(a.L, j, b), a.live - {b}, a.granted + Units(b), j)
  }

  /** The units of the block are free, and the search ended at the last block below it. */
  lemma FreeMeans(base: int, a: Arena, b: Blk)
    requires WellFormed(base, a.L) && base < b.addr && a.L[0].addr < b.addr
    ensures forall u: int :: Covers(FreeSpec(a, b).L, u) <==> Covers(a.L, u) || b.addr <= u < b.addr + b.size
    ensures var j := Slot(a.L, b.addr, |a.L|);
            forall k :: 0 <= k < |a.L| ==> a.L[k].addr <= a.L[j].addr || a.L[k].addr >= b.addr
  {
    var j := Slot(a.L, b.addr, |a.L|);
    forall u: int ensures Covers(FreeSpec(a, b).L, u) <==> Covers(a.L, u) || b.addr <= u < b.addr + b.size {
      InsertCovers(a.L, j, b, u);
    }
    forall k | 0 <= k < |a.L| ensures a.L[k].addr <= a.L[j].addr || a.L[k].addr >= b.addr {
      if k < j { assert a.L[k].addr + a.L[k].size < a.L[j].addr; }
    }
  }

  ghost function Carved(L: seq<Blk>, i: nat, n: nat): (b: Blk)
    requires i < |L| && n <= L[i].size
  {
    Blk(L[i].addr + (L[i].size - n), n)
  }

  ghost function TakeSpec(a: Arena, i: nat, n: nat): (r: Arena)
    requires 1 <= i < |a.L| && n <= a.L[i].size
  {
    Arena(Take(a.L, i, n), a.live + {Carved(a.L, i, n)}, a.granted, i - 1)
  }

  /** A block none of whose units is free has a place in the list. */
  lemma FitsAtSlot(base: int, L: seq<Blk>, b: Blk)
    requires WellFormed(base, L) && base < b.addr && b.size >= 1
    requires forall u :: Has(b, u) ==> !Covers(L, u)
    ensures Fits(L, Slot(L, b.addr, |L|), b)
    ensures forall i :: 0 <= i < |L| ==> L[i].addr != b.addr
  {
    var j := Slot(L, b.addr, |L|);
    forall i | 0 <= i < |L| ensures !Has(L[i], b.addr) {
      assert Has(b, b.addr);
    }
    if j + 1 < |L| {
      assert L[0].addr + L[0].size < L[j + 1].addr;
      assert Has(L[j + 1], L[j + 1].addr);
      assert !Has(b, L[j + 1].addr);
    }
    forall i | 0 <= i < |L| ensures L[i].addr != b.addr {
      if i > 0 { assert L[0].addr + L[0].size < L[i].addr; assert Has(L[i], L[i].addr); }
    }
  }

  /** Units of a block that may be given to free(): live ones, or ones sbrk just granted. */
  ghost predicate Returnable(base: int, a: Arena, b: Blk) {
    && b.size >= 1 && b.addr > base
    && (b in a.live || forall u :: Has(b, u) ==> u !in a.granted)
  }

  lemma ReturnableNotFree(base: int, a: Arena, b: Blk)
    requires Owned(base, a) && Returnable(base, a, b)
    ensures forall u :: Has(b, u) ==> !Covers(a.L, u)
    ensures forall x, u :: x in a.live && x != b && Has(x, u) ==> !Has(b, u)
  {
    forall u | Has(b, u) ensures !Covers(a.L, u) {
      if b in a.live { assert Alive(a.live, u); }
    }
    forall x, u | x in a.live && x != b && Has(x, u) ensures !Has(b, u) {
      assert Alive(a.live, u);
    }
  }

  lemma FreeOwned(base: int, a: Arena, b: Blk)
    requires WellFormed(base, a.L) && Owned(base, a) && Returnable(base, a, b)
    ensures Owned(base, FreeSpec(a, b))
  {
    var r := FreeSpec(a, b);
    ReturnableNotFree(base, a, b);
    forall u ensures Covers(r.L, u) <==> Covers(a.L, u) || Has(b, u) { InsertCovers(a.L, r.k, b, u); }
    forall u ensures Alive(r.live, u) <==> Alive(a.live, u) && !Has(b, u) {
      if Alive(a.live, u) && !Has(b, u) { var x :| x in a.live && Has(x, u); assert x in r.live; }
      if Alive(r.live, u) { var x :| x in r.live && Has(x, u); assert x in a.live; }
    }
  }

  lemma TakeOwned(base: int, a: Arena, i: nat, n: nat)
    requires WellFormed(base, a.L) && Owned(base, a) && 1 <= i < |a.L| && 1 <= n <= a.L[i].size
    ensures Owned(base, TakeSpec(a, i, n))
  {
    var r, b := TakeSpec(a, i, n), Carved(a.L, i, n);
    forall u ensures Covers(r.L, u) <==> Covers(a.L, u) && !Has(b, u) { TakeCovers(base, a.L, i, n, u); }
    forall u | Has(b, u) ensures Covers(a.L, u) { assert Has(a.L[i], u); }
    forall u ensures Alive(r.live, u) <==> Alive(a.live, u) || Has(b, u) {
      if Alive(a.live, u) { var x :| x in a.live && Has(x, u); assert x in r.live; }
      if Has(b, u) { assert b in r.live; }
      if Alive(r.live, u) { var x :| x in r.live && Has(x, u); }
    }
    forall x, y, u | x in r.live && y in r.live && Has(x, u) && Has(y, u) ensures x == y {
      if x != b { assert x in a.live && Alive(a.live, u); }
      if y != b { assert y in a.live && Alive(a.live, u); }
    }
  }

  // ----- runs of the allocator -----

  /** free() of a live block, memory granted to morecore(), or malloc() of n units from block i. */
  datatype Op = Release(b: Blk) | Grant(b: Blk) | Alloc(i: nat, n: nat)

  ghost predicate ArenaOk(base: int, a: Arena) { WellFormed(base, a.L) && Owned(base, a) }

  ghost predicate Enabled(base: int, a: Arena, op: Op) {
    match op
    case Release(b) => b in a.live
    case Grant(b) => Returnable(base, a, b) && b !in a.live
    case Alloc(i, n) => 1 <= i < |a.L| && 1 <= n <= a.L[i].size
  }

  ghost predicate Steps(base: int, a: Arena, op: Op, r: Arena) {
    match op
    case Release(b) => |a.L| >= 1 && a.L[0].addr < b.addr && r == FreeSpec(a, b)
    case Grant(b) => |a.L| >= 1 && a.L[0].addr < b.addr && r == FreeSpec(a, b)
    case Alloc(i, n) => 1 <= i < |a.L| && n <= a.L[i].size && r == TakeSpec(a, i, n)
  }

  ghost predicate IsRun(base: int, ar: seq<Arena>, ops: seq<Op>) {
    && |ar| == |ops| + 1 && ar[0] == Arena([Blk(base, 0)], {}, {}, 0)
    && forall i :: 0 <= i < |ops| ==> Enabled(base, ar[i], ops[i]) && Steps(base, ar[i], ops[i], ar[i + 1])
  }

  lemma StepKeeps(base: int, a: Arena, op: Op, r: Arena)
    requires ArenaOk(base, a) && Enabled(base, a, op) && Steps(base, a, op, r)
    ensures ArenaOk(base, r)
    ensures r.granted == a.granted + if op.Grant? then Units(op.b) else {}
    ensures r.live == if op.Alloc? then a.live + {Carved(a.L, op.i, op.n)} else a.live - {op.b}
    ensures op.Alloc? ==> forall u :: Has(Carved(a.L, op.i, op.n), u) ==> !Alive(a.live, u)
  {
    match op
    case Alloc(i, n) =>
      TakeWellFormed(base, a.L, i, n);
      TakeOwned(base, a, i, n);
      forall u | Has(Carved(a.L, i, n), u) ensures !Alive(a.live, u) { assert Has(a.L[i], u); }
    case Release(b) =>
      forall u | u in Units(b) ensures u in a.granted { assert Alive(a.live, u); }
      assert Has(b, b.addr) && Alive(a.live, b.addr);
      ReturnKeeps(base, a, b);
    case Grant(b) =>
      ReturnKeeps(base, a, b);
  }

  lemma ReturnKeeps(base: int, a: Arena, b: Blk)
    requires ArenaOk(base, a) && Returnable(base, a, b)
    ensures ArenaOk(base, FreeSpec(a, b))
  {
    ReturnableNotFree(base, a, b);
    FitsAtSlot(base, a.L, b);
    InsertWellFormed(base, a.L, FreeSpec(a, b).k, b);
    FreeOwned(base, a, b);
  }

  /**
    Over every run of malloc() and free() with correct frees the free list stays ordered and
    coalesced, and every granted unit stays in exactly one free or live block.
  */
  lemma {:induction false} RunsKeepArena(base: int, ar: seq<Arena>, ops: seq<Op>, t: nat)
    requires IsRun(base, ar, ops) && t <= |ops|
    ensures ArenaOk(base, ar[t])
  {
    if t > 0 {
      RunsKeepArena(base, ar, ops, t - 1);
      StepKeeps(base, ar[t - 1], ops[t - 1], ar[t]);
    }
  }

  /** The invariant of the running allocator: memory m holds the arena a. */
  ghost predicate Holds(base: int, m: Mem, a: Arena) {
    && WellFormed(base, a.L) && Linked(m, a.L) && Owned(base, a)
    && a.k < |a.L| && m.freep == a.L[a.k].addr
    && LiveHeaders(m, a)
  }

  ghost predicate LiveHeaders(m: Mem, a: Arena) {
    forall x :: x in a.live ==> x.addr in m.size && m.size[x.addr] == x.size
  }

  /** No header in the list is that of a live block. */
  lemma HeadersApart(base: int, a: Arena, x: Blk, i: nat)
    requires WellFormed(base, a.L) && Owned(base, a) && x in a.live && i < |a.L|
    ensures a.L[i].addr != x.addr
  {
    assert Has(x, x.addr) && Alive(a.live, x.addr);
    if i > 0 && a.L[i].addr == x.addr {
      assert a.L[0].addr + a.L[0].size < a.L[i].addr;
      assert Has(a.L[i], x.addr);
    }
  }

  /** free() keeps the invariant and does to the arena what FreeSpec says. */
  lemma FreeHolds(base: int, m: Mem, a: Arena, b: Blk)
    requires Holds(base, m, a) && Returnable(base, a, b) && b.addr in m.size && m.size[b.addr] == b.size
    ensures var p := a.L[FreeSpec(a, b).k].addr;
            && p in m.ptr && p in m.size && m.ptr[p] in m.ptr && m.ptr[p] in m.size
            && Holds(base, FreeMem(m, p, b.addr), FreeSpec(a, b))
  {
    var r := FreeSpec(a, b);
    ReturnableNotFree(base, a, b);
    FitsAtSlot(base, a.L, b);
    FreeLinks(base, m, a.L, r.k, b);
    InsertWellFormed(base, a.L, r.k, b);
    FreeOwned(base, a, b);
    var p := a.L[r.k].addr;
    assert r.L[r.k].addr == p;
    forall x | x in r.live ensures x.addr in m.size && x.addr != p && x.addr != b.addr {
      HeadersApart(base, a, x, r.k);
      assert Has(x, x.addr) && Has(b, b.addr);
    }
  }

  /** malloc() keeps the invariant and does to the arena what TakeSpec says. */
  lemma TakeHolds(base: int, m: Mem, a: Arena, i: nat, n: nat)
    requires Holds(base, m, a) && 1 <= i < |a.L| && 1 <= n <= a.L[i].size
    ensures var p, prevp := a.L[i].addr, a.L[i - 1].addr;
            && p in m.ptr && p in m.size && prevp in m.ptr && m.size[p] == a.L[i].size
            && Holds(base, TakeMem(m, prevp, p, n), TakeSpec(a, i, n))
  {
    TakeLinks(base, m, a.L, i, i - 1, n);
    TakeWellFormed(base, a.L, i, n);
    TakeOwned(base, a, i, n);
    var b := Carved(a.L, i, n);
    assert Has(a.L[i], b.addr);
    forall x | x in a.live ensures x.addr != a.L[i].addr && x.addr != b.addr {
      HeadersApart(base, a, x, i);
      assert Has(x, x.addr) && Alive(a.live, x.addr);
      assert Covers(a.L, b.addr);
    }
  }

  // ----- sizes and sbrk -----

  const HEADER: nat := 16       // sizeof(Header)
  const MINUNITS: nat := 4096

  /** Units malloc(nbytes) needs, header included. */
  function Nunits(nbytes: nat): (n: nat)
    ensures (n - 1) * HEADER >= nbytes && n >= 1
    ensures n >= 2 ==> (n - 2) * HEADER < nbytes
  {
    (nbytes + HEADER - 1) / HEADER + 1
  }

  /** What morecore() asks for: at least 4096 units. */
  function CoreUnits(nu: nat): (n: nat)
    ensures n >= nu && n >= 4096 && (n == nu || n == 4096)
  {
    if nu < MINUNITS then MINUNITS else nu
  }

  /** The argument sbrk receives: nu * sizeof(Header) narrowed to an int. */
  function SbrkArg(nu: nat): (n: int) {
    var w := (nu * HEADER) % 0x1_0000_0000;
    if w < 0x8000_0000 then w else w - 0x1_0000_0000
  }

  /** sbrk is asked for as many bytes as the new header will claim exactly below 2^27 units. */
  lemma SbrkArgExact(nu: nat)
    requires nu < 0x1_0000_0000
    ensures SbrkArg(nu) == nu * HEADER <==> nu < 0x800_0000
  {
    if nu >= 0x800_0000 && nu * HEADER < 0x1_0000_0000 {
      assert SbrkArg(nu) == nu * HEADER - 0x1_0000_0000;
    }
  }

  /** malloc(2^31) asks sbrk to shrink memory, and malloc(2^32-1) for one header. */
  lemma HugeRequestsAreNarrowed()
    ensures SbrkArg(Nunits(0x8000_0000)) < 0
    ensures SbrkArg(Nunits(0xffff_ffff)) == HEADER
  {
    assert Nunits(0x8000_0000) == 0x800_0001;
    assert Nunits(0xffff_ffff) == 0x1000_0001;
  }

  // ----- the allocator -----

  /** The index t places after k in a circular list of n. */
  function Cyc(n: nat, k: nat, t: nat): (i: nat)
    requires k < n && t <= n
    ensures i < n
  {
    if k + t < n then k + t else k + t - n
  }

  /** Block i is the first, in the order malloc() visits from freep, with n units. */
  ghost predicate NextFit(a: Arena, n: nat, i: nat) {
    && a.k < |a.L| && i < |a.L| && a.L[i].size >= n
    && exists d :: 1 <= d <= |a.L| && Cyc(|a.L|, a.k, d) == i
         && forall t :: 1 <= t < d ==> a.L[Cyc(|a.L|, a.k, t)].size < n
  }

  ghost predicate AllSmall(L: seq<Blk>, n: nat) { forall i :: 0 <= i < |L| ==> L[i].size < n }

  /** The visited blocks are all there are once the walk is back at freep. */
  lemma FullCircle(a: Arena, n: nat)
    requires a.k < |a.L|
    requires forall t :: 1 <= t <= |a.L| ==> a.L[Cyc(|a.L|, a.k, t)].size < n
    ensures AllSmall(a.L, n)
  {
    forall i | 0 <= i < |a.L| ensures a.L[i].size < n {
      var t := if i > a.k then i - a.k else i - a.k + |a.L|;
      assert Cyc(|a.L|, a.k, t) == i;
    }
  }

  class Heap {
    const base: int              // the address of the static header
    var m: Mem
    ghost var a: Arena
    ghost var sbrkCalls: nat

    ghost predicate Valid()
      reads this
    {
      base > 0 && if m.freep == 0 then a == Arena([], {}, {}, 0) else Holds(base, m, a)
    }

    constructor (base: int)
      requires base > 0
      ensures Valid() && this.base == base && m.freep == 0 && sbrkCalls == 0
    {
      this.base, m, a, sbrkCalls := base, Mem(map[], map[], 0), Arena([], {}, {}, 0), 0;
    }

    /** The search of free() ends at the last list block below bp, wherever freep stands. */
    method Search(bp: int) returns (p: int)
      requires m.freep != 0 && Holds(base, m, a) && bp > base
      requires forall i :: 0 <= i < |a.L| ==> a.L[i].addr != bp
      ensures p == a.L[Slot(a.L, bp, |a.L|)].addr && p in m.ptr
    {
      ghost var j: nat, k: nat := Slot(a.L, bp, |a.L|), a.k;
      p := m.freep;
      assert LinkAt(m, a.L, k);
      while !(bp > p && bp < m.ptr[p])
        invariant k < |a.L| && p == a.L[k].addr && LinkAt(m, a.L, k)
        decreases if k <= j then j - k else j - k + |a.L|
      {
        SlotOrder(base, a.L, bp, k);
        if p >= m.ptr[p] && (bp > p || bp < m.ptr[p]) { break; }
        p := m.ptr[p];
        k := Next(a.L, k);
        assert LinkAt(m, a.L, k);
      }
      SlotOrder(base, a.L, bp, k);
    }

    /** Return a block to the list: a live one, or one sbrk has just granted. */
    method Free(ap: int)
      requires Valid() && m.freep != 0 && ap - 1 in m.size
      requires Returnable(base, a, Blk(ap - 1, m.size[ap - 1]))
      modifies this`m, this`a
      ensures Valid() && m.freep != 0
      ensures a == FreeSpec(old(a), Blk(ap - 1, old(m).size[ap - 1]))
      ensures forall u: int :: Covers(a.L, u) <==> Covers(old(a).L, u) || ap - 1 <= u < ap - 1 + old(m).size[ap - 1]
      ensures m.freep < ap - 1 && forall k :: 0 <= k < |old(a).L| ==> old(a).L[k].addr <= m.freep || old(a).L[k].addr >= ap - 1
    {
      hide Covers, Coalesced, Owned;
      var bp := ap - 1;
      ghost var b := Blk(bp, m.size[bp]);
      ReturnableNotFree(base, a, b);
      FitsAtSlot(base, a.L, b);
      FreeHolds(base, m, a, b);
      var p := Search(bp);
      ghost var m0 := m;
      if bp + m.size[bp] == m.ptr[p] {
        m := Mem(m.ptr[bp := m.ptr[m.ptr[p]]], m.size[bp := m.size[bp] + m.size[m.ptr[p]]], m.freep);
      } else {
        m := Mem(m.ptr[bp := m.ptr[p]], m.size, m.freep);
      }
      if p + m.size[p] == bp {
        m := Mem(m.ptr[p := m.ptr[bp]], m.size[p := m.size[p] + m.size[bp]], m.freep);
      } else {
        m := m.(ptr := m.ptr[p := bp]);
      }
      m := m.(freep := p);
      assert m == FreeMem(m0, p, bp);
      FreeMeans(base, a, b);
      a := FreeSpec(a, b);
    }

    /**
      Obtain units from sbrk, whose answer is grant: -1 or the address of fresh memory
      above base.
    */
    method MoreCore(nu: nat, grant: int) returns (p: int)
      requires Valid() && m.freep != 0 && nu >= 1
      requires grant != -1 ==> Returnable(base, a, Blk(grant, CoreUnits(nu))) && Blk(grant, CoreUnits(nu)) !in a.live
      modifies this
      ensures Valid() && m.freep != 0 && sbrkCalls == old(sbrkCalls) + 1
      ensures grant == -1 ==> p == 0 && m == old(m) && a == old(a)
      ensures grant != -1 ==> p == m.freep && a == FreeSpec(old(a), Blk(grant, CoreUnits(nu)))
      ensures grant != -1 ==> !AllSmall(a.L, nu)
    {
      var n := if nu < MINUNITS then MINUNITS else nu;
      sbrkCalls := sbrkCalls + 1;
      if grant == -1 { return 0; }
      GrantHolds(base, m, a, Blk(grant, n));
      m := m.(size := m.size[grant := n]);
      InsertHasRoom(a.L, Slot(a.L, grant, |a.L|), Blk(grant, n));
      Free(grant + 1);
      p := m.freep;
    }

    /** malloc()'s walk from freep to the first block with n units, or back to freep. */
    method Scan(n: nat) returns (fits: bool, prevp: int, p: int, ghost i: nat)
      requires m.freep != 0 && Holds(base, m, a) && n >= 1
      ensures fits <==> !AllSmall(a.L, n)
      ensures fits ==> 1 <= i && NextFit(a, n, i) && prevp == a.L[i - 1].addr && p == a.L[i].addr
      ensures !fits ==> p == m.freep
    {
      ghost var d: nat := 0;
      prevp := m.freep;
      assert LinkAt(m, a.L, a.k);
      p := m.ptr[prevp];
      assert Cyc(|a.L|, a.k, 0) == a.k;
      while true
        invariant Walk(m, a, n, d, prevp, p)
        decreases |a.L| - d
      {
        i := Cyc(|a.L|, a.k, d + 1);
        assert LinkAt(m, a.L, i);
        if m.size[p] >= n {
          FoundFit(base, m, a, n, d, prevp, p);
          return true, prevp, p, i;
        }
        if p == m.freep {
          BackAtStart(base, m, a, n, d, p);
          return false, prevp, p, i;
        }
        StillWalking(base, m, a, n, d, prevp, p);
        d := d + 1;
        prevp := p;
        p := m.ptr[p];
      }
    }

    /** Hand out n units of the block p, which follows prevp. */
    method Carve(prevp: int, p: int, n: nat, ghost i: nat) returns (ap: int)
      requires Valid() && m.freep != 0 && 1 <= i < |a.L| && 1 <= n <= a.L[i].size
      requires prevp == a.L[i - 1].addr && p == a.L[i].addr
      modifies this`m, this`a
      ensures Valid() && m.freep == prevp != 0 && ap > 0
      ensures a == TakeSpec(old(a), i, n) && Blk(ap - 1, n) == Carved(old(a).L, i, n)
      ensures ap - 1 + n == old(a).L[i].addr + old(a).L[i].size && a.live == old(a).live + {Blk(ap - 1, n)}
      ensures forall u: int :: Covers(a.L, u) <==> Covers(old(a).L, u) && !(ap - 1 <= u < ap - 1 + n)
    {
      TakeHolds(base, m, a, i, n);
      ghost var m0 := m;
      var q := p;
      if m.size[q] == n {
        m := m.(ptr := m.ptr[prevp := m.ptr[q]]);
      } else {
        m := m.(size := m.size[q := m.size[q] - n]);
        q := q + m.size[q];
        m := m.(size := m.size[q := n]);
      }
      m := m.(freep := prevp);
      assert m == TakeMem(m0, prevp, p, n);
      assert i > 0 ==> a.L[0].addr + a.L[0].size < a.L[i].addr;
      assert i > 1 ==> a.L[0].addr + a.L[0].size < a.L[i - 1].addr;
      forall u: int ensures Covers(Take(a.L, i, n), u) <==> Covers(a.L, u) && !(q <= u < q + n) {
        TakeCovers(base, a.L, i, n, u);
      }
      a := TakeSpec(a, i, n);
      ap := q + 1;
    }

    /**
      malloc(). On success the block handed out is the next fit from freep, taken from the list
      as it was or, when no block was large enough, as morecore() left it. It fails only
      when sbrk fails, and calls sbrk exactly when no free block is large enough.
    */
    method Malloc(nbytes: nat, grant: int) returns (ap: int, ghost i: nat)
      requires Valid() && nbytes < 0x1_0000_0000 && CoreUnits(Nunits(nbytes)) < 0x800_0000
      requires grant != -1 ==> Returnable(base, a, Blk(grant, CoreUnits(Nunits(nbytes))))
                               && Blk(grant, CoreUnits(Nunits(nbytes))) !in a.live
      modifies this
      ensures Valid() && m.freep != 0
      ensures var a0 := if old(m).freep == 0 then Arena([Blk(base, 0)], {}, {}, 0) else old(a);
              var n := Nunits(nbytes);
              var a1 := if AllSmall(a0.L, n) && grant != -1 then FreeSpec(a0, Blk(grant, CoreUnits(n))) else a0;
              && sbrkCalls == old(sbrkCalls) + (if AllSmall(a0.L, n) then 1 else 0)
              && (ap == 0 <==> AllSmall(a0.L, n) && grant == -1)
              && (ap == 0 ==> a == a0)
              && (ap != 0 ==> NextFit(a1, n, i) && 1 <= i && a == TakeSpec(a1, i, n) && Blk(ap - 1, n) == Carved(a1.L, i, n))
              && (ap != 0 ==> ap - 1 + n == a1.L[i].addr + a1.L[i].size && a.live == a1.live + {Blk(ap - 1, n)}
                              && forall u: int :: Covers(a.L, u) <==> Covers(a1.L, u) && !(ap - 1 <= u < ap - 1 + n))
    {
      var n := Nunits(nbytes);
      i := 0;
      if m.freep == 0 {
        m := Mem(m.ptr[base := base], m.size[base := 0], base);
        a := Arena([Blk(base, 0)], {}, {}, 0);
        FirstHolds(base, m);
      }
      ghost var a0, asked := a, false;
      while true
        invariant Valid() && m.freep != 0
        invariant sbrkCalls == old(sbrkCalls) + (if asked then 1 else 0)
        invariant asked ==> AllSmall(a0.L, n) && grant != -1 && a == FreeSpec(a0, Blk(grant, CoreUnits(n)))
                            && !AllSmall(a.L, n)
        invariant !asked ==> a == a0
        decreases !asked
      {
        var fits, prevp, p, found := Scan(n);
        i := found;
        if fits {
          ap := Carve(prevp, p, n, i);
          return;
        }
        p := MoreCore(n, grant);
        if p == 0 { return 0, i; }
        asked := true;
      }
    }
  }

  /** malloc()'s walk: prevp is d places after freep, p follows it, and nothing passed was large enough. */
  ghost predicate Walk(m: Mem, a: Arena, n: nat, d: nat, prevp: int, p: int) {
    && a.k < |a.L| && d < |a.L|
    && prevp == a.L[Cyc(|a.L|, a.k, d)].addr
    && p == a.L[Cyc(|a.L|, a.k, d + 1)].addr
    && forall t :: 1 <= t <= d ==> a.L[Cyc(|a.L|, a.k, t)].size < n
  }

  lemma FoundFit(base: int, m: Mem, a: Arena, n: nat, d: nat, prevp: int, p: int)
    requires Holds(base, m, a) && Walk(m, a, n, d, prevp, p) && n >= 1
    requires a.L[Cyc(|a.L|, a.k, d + 1)].size >= n
    ensures var i := Cyc(|a.L|, a.k, d + 1);
            i >= 1 && NextFit(a, n, i) && prevp == a.L[i - 1].addr
  {
  }

  lemma BackAtStart(base: int, m: Mem, a: Arena, n: nat, d: nat, p: int)
    requires Holds(base, m, a) && d < |a.L| && p == m.freep
    requires p == a.L[Cyc(|a.L|, a.k, d + 1)].addr && a.L[Cyc(|a.L|, a.k, d + 1)].size < n
    requires forall t :: 1 <= t <= d ==> a.L[Cyc(|a.L|, a.k, t)].size < n
    ensures AllSmall(a.L, n)
  {
    CoalescedDistinct(a.L);
    assert d + 1 == |a.L|;
    FullCircle(a, n);
  }

  lemma StillWalking(base: int, m: Mem, a: Arena, n: nat, d: nat, prevp: int, p: int)
    requires Holds(base, m, a) && Walk(m, a, n, d, prevp, p) && p != m.freep
    requires a.L[Cyc(|a.L|, a.k, d + 1)].size < n
    ensures d + 1 < |a.L|
    ensures Next(a.L, Cyc(|a.L|, a.k, d + 1)) == Cyc(|a.L|, a.k, d + 2)
    ensures forall t :: 1 <= t <= d + 1 ==> a.L[Cyc(|a.L|, a.k, t)].size < n
  {
  }

  lemma FirstHolds(base: int, m: Mem)
    requires base > 0 && m.freep == base && base in m.ptr && m.ptr[base] == base && base in m.size && m.size[base] == 0
    ensures Holds(base, m, Arena([Blk(base, 0)], {}, {}, 0))
  {
    assert LinkAt(m, [Blk(base, 0)], 0);
  }

  /** Writing a header into fresh memory disturbs no other header. */
  lemma GrantHolds(base: int, m: Mem, a: Arena, b: Blk)
    requires Holds(base, m, a) && Returnable(base, a, b) && b !in a.live
    ensures Holds(base, m.(size := m.size[b.addr := b.size]), a)
  {
    var r := m.(size := m.size[b.addr := b.size]);
    ReturnableNotFree(base, a, b);
    FitsAtSlot(base, a.L, b);
    forall i | 0 <= i < |a.L| ensures LinkAt(r, a.L, i) { assert LinkAt(m, a.L, i); }
    forall x | x in a.live ensures x.addr != b.addr { assert Has(x, x.addr) && Has(b, b.addr); }
  }

  lemma InsertHasRoom(L: seq<Blk>, j: nat, b: Blk)
    requires j < |L|
    ensures exists e :: 0 <= e < |Insert(L, j, b)| && Insert(L, j, b)[e].size >= b.size
  {
    var e := if L[j].addr + L[j].size == b.addr then j else j + 1;
    assert Insert(L, j, b)[e].size >= b.size;
  }

  /** How the addresses around position k compare with bp. */
  lemma SlotOrder(base: int, L: seq<Blk>, bp: int, k: nat)
    requires WellFormed(base, L) && base < bp && k < |L|
    requires forall i :: 0 <= i < |L| ==> L[i].addr != bp
    ensures var j := Slot(L, bp, |L|);
            && (k == j <==> L[k].addr < bp && (k + 1 < |L| ==> bp < L[k + 1].addr))
            && (L[k].addr >= L[Next(L, k)].addr <==> k + 1 == |L|)
            && (k + 1 == |L| ==> L[Next(L, k)].addr == base)
  {
    var j := Slot(L, bp, |L|);
    if k < j { assert L[k].addr + L[k].size < L[j].addr; }
    if k + 1 < |L| { assert L[k].addr + L[k].size < L[k + 1].addr; }
    if k < j && k + 1 < j { assert L[k + 1].addr + L[k + 1].size < L[j].addr; }
    if k > 0 { assert L[0].addr + L[0].size < L[k].addr; }
  }
}
