/**
  Physical pages (kernel/kalloc.c) and page-table operations (kernel/vm.c).

  The free pages form a list threaded through their own first words. An address space is a
  tree of table pages together with the flat map it implements; both are ghost, the
  methods only see physical memory.
*/
module Vm {
  import opened PageTree

  /** Physical memory and the head of the free list (0 is the null pointer). */
  datatype Phys = Phys(mem: Mem, freelist: nat)

  datatype Space = Space(T: Tree, F: map<nat, nat>)

  // ----- the free list -----

  function PageAddr(p: nat): nat { p * 4096 }

  ghost predicate NextFree(mem: Mem, fs: seq<nat>, i: nat)
    requires i < |fs|
  {
    && fs[i] in mem && fs[i] != 0
    && mem[fs[i]][0] == PageAddr(if i + 1 < |fs| then fs[i + 1] else 0)
  }

  /** The free list holds exactly the pages fs, in this order, each once. */
  ghost predicate FreeOk(ph: Phys, fs: seq<nat>) {
    && ph.freelist == (if fs == [] then 0 else fs[0])
    && (forall i :: 0 <= i < |fs| ==> NextFree(ph.mem, fs, i))
    && (forall i, j :: 0 <= i < j < |fs| ==> fs[i] != fs[j])
  }

  ghost function Pages(fs: seq<nat>): (s: set<nat>) { set p | p in fs }

  function Filled(w: nat): (p: Page)
    ensures forall k :: 0 <= k < ENTRIES ==> p[k] == w
  {
    seq(ENTRIES, _ => w)
  }

  /** Memory keeps its pages and its contents outside the pages s. */
  ghost predicate OnlyChanges(mem: Mem, mem': Mem, s: set<nat>) {
    mem'.Keys == mem.Keys && forall p :: p in mem && p !in s ==> mem'[p] == mem[p]
  }

  lemma PopFree(ph: Phys, fs: seq<nat>, junk: Page)
    requires FreeOk(ph, fs) && fs != []
    ensures fs[0] in ph.mem
    ensures FreeOk(Phys(ph.mem[fs[0] := junk], ph.mem[fs[0]][0] / 4096), fs[1..])
    ensures Pages(fs) == {fs[0]} + Pages(fs[1..]) && fs[0] !in Pages(fs[1..])
  {
    assert NextFree(ph.mem, fs, 0);
    var r := Phys(ph.mem[fs[0] := junk], ph.mem[fs[0]][0] / 4096);
    forall i | 0 <= i < |fs| - 1 ensures NextFree(r.mem, fs[1..], i) { assert NextFree(ph.mem, fs, i + 1); }
    assert fs == [fs[0]] + fs[1..];
  }

  lemma PushFree(ph: Phys, fs: seq<nat>, p: nat, page: Page)
    requires FreeOk(ph, fs) && p in ph.mem && p != 0 && p !in fs && page[0] == PageAddr(ph.freelist)
    ensures FreeOk(Phys(ph.mem[p := page], p), [p] + fs)
    ensures Pages([p] + fs) == {p} + Pages(fs)
  {
    var gs, m := [p] + fs, ph.mem[p := page];
    forall i | 0 <= i < |gs| ensures NextFree(m, gs, i) {
      if i > 0 { assert NextFree(ph.mem, fs, i - 1); }
    }
  }

  lemma FreeFrame(ph: Phys, fs: seq<nat>, mem': Mem)
    requires FreeOk(ph, fs) && forall p :: p in fs ==> p in mem' && p in ph.mem && mem'[p] == ph.mem[p]
    ensures FreeOk(Phys(mem', ph.freelist), fs)
  {
    forall i | 0 <= i < |fs| ensures NextFree(mem', fs, i) { assert NextFree(ph.mem, fs, i); }
  }

  // ----- memory with one address space in focus -----

  ghost predicate RootIs(A: Space, root: nat) { Root in A.T && A.T[Root] == root }

  /** Free pages and table pages are disjoint and both are in order. */
  ghost predicate Sys(ph: Phys, fs: seq<nat>, A: Space) {
    0 !in ph.mem && FreeOk(ph, fs) && Implements(ph.mem, A.T, A.F) && Pages(fs) !! A.T.Values
  }

  /** Table pages were added from the free list, and no page was lost or gained. */
  ghost predicate Grown(fs: seq<nat>, A: Space, fs': seq<nat>, A': Space) {
    && (forall n :: n in A.T ==> n in A'.T && A'.T[n] == A.T[n])
    && Pages(fs') + A'.T.Values == Pages(fs) + A.T.Values
  }

  /** The space has grown and memory changed only in pages that were free or its tables. */
  ghost predicate Evolved(mem: Mem, fs: seq<nat>, A: Space, mem': Mem, fs': seq<nat>, A': Space) {
    Grown(fs, A, fs', A') && OnlyChanges(mem, mem', Pages(fs) + A.T.Values)
  }

  lemma EvolvedTransitive(m0: Mem, f0: seq<nat>, A0: Space, m1: Mem, f1: seq<nat>, A1: Space, m2: Mem, f2: seq<nat>, A2: Space)
    requires Evolved(m0, f0, A0, m1, f1, A1) && Evolved(m1, f1, A1, m2, f2, A2)
    ensures Evolved(m0, f0, A0, m2, f2, A2)
  {
  }

  function NodeAt(v: nat, level: nat): Node {
    if level == 2 then Root else if level == 1 then Mid(Px2(v)) else LowOf(v)
  }

  function PxAt(v: nat, level: nat): nat { if level == 2 then Px2(v) else Px1(v) }

  /** Adding a table page at the next level of the walk. */
  lemma AddTable(ph: Phys, fs: seq<nat>, A: Space, v: nat, level: nat, q: nat)
    requires Sys(ph, fs, A) && v < NVPN && 1 <= level <= 2
    requires NodeAt(v, level) in A.T && NodeAt(v, level - 1) !in A.T
    requires q in ph.mem && q !in A.T.Values && q !in fs
    ensures PxAt(v, level) < ENTRIES && A.T[NodeAt(v, level)] in ph.mem
    ensures var mem' := Poke(ph.mem[q := Filled(0)], A.T[NodeAt(v, level)], PxAt(v, level), MkPte(q, 0));
            var A' := A.(T := A.T[NodeAt(v, level - 1) := q]);
            Sys(Phys(mem', ph.freelist), fs, A') && A'.T.Values == A.T.Values + {q}
  {
    PxInRange(v);
    var m1 := ph.mem[q := Filled(0)];
    forall n | n in A.T ensures m1[A.T[n]] == ph.mem[A.T[n]] { assert A.T[n] in A.T.Values; }
    TreeFrame(ph.mem, m1, A.T, A.F);
    if level == 2 {
      AddMid(m1, A.T, A.F, Px2(v), q);
    } else {
      AddLow(m1, A.T, A.F, Px2(v), Px1(v), q);
    }
    var mem' := Poke(m1, A.T[NodeAt(v, level)], PxAt(v, level), MkPte(q, 0));
    assert A.T[NodeAt(v, level)] in A.T.Values;
    FreeFrameSet(ph, fs, mem', A.T.Values + {q});
    ValuesAdd(A.T, NodeAt(v, level - 1), q);
  }

  lemma FreeFrameSet(ph: Phys, fs: seq<nat>, mem': Mem, s: set<nat>)
    requires FreeOk(ph, fs) && Pages(fs) !! s && OnlyChanges(ph.mem, mem', s)
    ensures FreeOk(Phys(mem', ph.freelist), fs)
  {
    forall p | p in fs ensures p in ph.mem && p !in s {
      var i :| 0 <= i < |fs| && fs[i] == p;
      assert NextFree(ph.mem, fs, i) && p in Pages(fs);
    }
    FreeFrame(ph, fs, mem');
  }

  lemma ValuesAdd(T: Tree, n: Node, q: nat)
    requires n !in T
    ensures T[n := q].Values == T.Values + {q}
  {
    var S := T[n := q];
    forall x | x in T.Values + {q} ensures x in S.Values {
      if x == q { assert S[n] == q; } else { var a :| a in T && T[a] == x; assert S[a] == x; }
    }
  }

  // ----- flat maps -----

  /** F with the n pages from v mapped to the n frames from p. */
  function MapRange(F: map<nat, nat>, v: nat, n: nat, p: nat, perm: nat): (G: map<nat, nat>)
    requires perm < 1024
  {
    if n == 0 then F else MapRange(F, v, n - 1, p, perm)[v + n - 1 := MkPte(p + n - 1, perm)]
  }

  lemma {:induction false} MapRangeAt(F: map<nat, nat>, v: nat, n: nat, p: nat, perm: nat, w: nat)
    requires perm < 1024
    ensures var G := MapRange(F, v, n, p, perm);
            && (w in G <==> w in F || v <= w < v + n)
            && (w in G ==> G[w] == if v <= w < v + n then MkPte(p + (w - v), perm) else F[w])
  {
    if n > 0 { MapRangeAt(F, v, n - 1, p, perm, w); }
  }

  /** A run of mappings grows by its next page, which it does not yet map. */
  lemma MapRangeStep(F: map<nat, nat>, v: nat, n: nat, p: nat, perm: nat, a: nat, q: nat)
    requires perm < 1024 && a == v + n && q == p + n && a !in F
    ensures MapRange(F, v, n + 1, p, perm) == MapRange(F, v, n, p, perm)[a := MkPte(q, perm)]
    ensures a !in MapRange(F, v, n, p, perm)
  {
    MapRangeAt(F, v, n, p, perm, a);
  }

  predicate Within(v: nat, e: nat, w: nat) { v <= w < e }

  ghost function Range(v: nat, e: nat): (s: set<nat>) { set w | v <= w < e && Within(v, e, w) }

  /** The physical pages F maps the pages from v up to e to. */
  ghost function Frames(F: map<nat, nat>, v: nat, e: nat): (s: set<nat>) {
    set w | w in F && Within(v, e, w) :: PtePage(F[w])
  }

  class Kernel {
    var ph: Phys
    ghost var free: seq<nat>

    /** Memory before kinit(): nothing is on the free list. */
    constructor (mem: Mem)
      ensures ph == Phys(mem, 0) && free == []
    {
      ph, free := Phys(mem, 0), [];
    }

    /** kalloc(): the first free page, filled with junk, or 0. */
    method Kalloc() returns (q: nat)
      requires FreeOk(ph, free)
      modifies this
      ensures FreeOk(ph, free)
      ensures old(free) == [] ==> q == 0 && ph == old(ph) && free == old(free)
      ensures old(free) != [] ==> q == old(free)[0] && free == old(free)[1..] && q != 0
                                  && q in old(ph).mem && ph.mem == old(ph).mem[q := Filled(0x0505_0505_0505_0505)]
                                  && Pages(old(free)) == {q} + Pages(free) && q !in Pages(free)
    {
      q := ph.freelist;
      if q != 0 {
        PopFree(ph, free, Filled(0x0505_0505_0505_0505));
        ph := Phys(ph.mem, ph.mem[q][0] / 4096);
        ph := ph.(mem := ph.mem[q := Filled(0x0505_0505_0505_0505)]);
        free := free[1..];
      } else {
        assert free != [] ==> NextFree(ph.mem, free, 0);
      }
    }

    /** kfree(): put an allocated page at the head of the list. */
    method Kfree(p: nat)
      requires FreeOk(ph, free) && p in ph.mem && p != 0 && p !in free
      modifies this
      ensures FreeOk(ph, free) && free == [p] + old(free) && Pages(free) == {p} + Pages(old(free))
      ensures OnlyChanges(old(ph).mem, ph.mem, {p})
    {
      var page := Filled(0x0101_0101_0101_0101);
      page := page[0 := PageAddr(ph.freelist)];
      PushFree(ph, free, p, page);
      ph := Phys(ph.mem[p := page], p);
      free := [p] + free;
    }

    /**
      walk(): the level-0 table page for virtual page v, or 0. With alloc it adds table pages
      from the free list and fails only when that is empty; no translation changes.
    */
    method Walk(root: nat, v: nat, alloc: bool, ghost A: Space) returns (low: nat, ghost A': Space)
      requires Sys(ph, free, A) && RootIs(A, root) && v < NVPN
      modifies this
      ensures Sys(ph, free, A') && A'.F == A.F && Evolved(old(ph).mem, old(free), A, ph.mem, free, A')
      ensures !alloc ==> ph == old(ph) && free == old(free) && A' == A
      ensures low == 0 ==> LowOf(v) !in A'.T && (alloc ==> free == [])
      ensures low != 0 ==> LowOf(v) in A'.T && low == A'.T[LowOf(v)]
      ensures |old(free)| <= |free| + (if low == 0 then 1 else 2)
    {
      hide Implements, FreeOk;
      A' := A;
      var pagetable, level := root, 2;
      while level > 0
        invariant 0 <= level <= 2 && Sys(ph, free, A') && A'.F == A.F && Grown(old(free), A, free, A')
        invariant NodeAt(v, level) in A'.T && pagetable == A'.T[NodeAt(v, level)]
        invariant OnlyChanges(old(ph).mem, ph.mem, Pages(old(free)) + A.T.Values)
        invariant !alloc ==> ph == old(ph) && free == old(free) && A' == A
        invariant |old(free)| <= |free| + 2 - level
      {
        WalkEntry(ph.mem, A'.T, A'.F, v, level);
        ghost var n := NodeAt(v, level - 1);
        var pte := ph.mem[pagetable][PxAt(v, level)];
        if PteV(pte) {
          pagetable := PtePage(pte);
        } else {
          if !alloc { NoLow(ph.mem, A'.T, A'.F, v, level - 1); return 0, A'; }
          ghost var mem0, free0 := ph.mem, free;
          var q := Kalloc();
          if q == 0 { NoLow(ph.mem, A'.T, A'.F, v, level - 1); return 0, A'; }
          AfterKalloc(mem0, free0, ph, free, A', q);
          AddTable(ph, free, A', v, level, q);
          ph := ph.(mem := ph.mem[q := Filled(0)]);
          ph := ph.(mem := Poke(ph.mem, pagetable, PxAt(v, level), MkPte(q, 0)));
          A' := A'.(T := A'.T[n := q]);
          pagetable := q;
        }
        level := level - 1;
      }
      TableThere(ph, free, A', LowOf(v));
      low := pagetable;
    }

    /** One round of mappages(): map page v to frame p, or fail for lack of a table page. */
    method MapOne(root: nat, v: nat, p: nat, perm: nat, ghost A: Space) returns (ok: bool, ghost A': Space)
      requires Sys(ph, free, A) && RootIs(A, root) && perm < 1024 && v < NVPN && v !in A.F
      modifies this
      ensures Sys(ph, free, A') && RootIs(A', root) && Evolved(old(ph).mem, old(free), A, ph.mem, free, A')
      ensures A'.F == if ok then A.F[v := MkPte(p, perm)] else A.F
      ensures !ok ==> free == [] && |old(free)| <= 1
      ensures |old(free)| <= |free| + 2
    {
      var low;
      low, A' := Walk(root, v, true, A);
      if low == 0 { return false, A'; }
      PxInRange(v);
      PokeSys(ph, free, A', v, MkPte(p, perm));
      PokeChanges(old(ph).mem, old(free), A, ph.mem, free, A', v, MkPte(p, perm));
      ph := ph.(mem := Poke(ph.mem, low, Px0(v), MkPte(p, perm)));
      A' := A'.(F := A'.F[v := MkPte(p, perm)]);
      ok := true;
    }

    /**
      mappages(): map the pages of [va, va+size) to the frames from pa on. It fails only when the
      free list is empty, and then k pages at the start of the range are mapped.
    */
    method MapPages(root: nat, va: nat, size: nat, pa: nat, perm: nat, ghost A: Space)
      returns (ok: bool, ghost A': Space, ghost k: nat)
      requires Sys(ph, free, A) && RootIs(A, root) && perm < 1024
      requires 1 <= size && (va + size - 1) / 4096 < NVPN
      requires forall w :: va / 4096 <= w <= (va + size - 1) / 4096 ==> w !in A.F
      modifies this
      ensures Sys(ph, free, A') && Evolved(old(ph).mem, old(free), A, ph.mem, free, A')
      ensures A'.F == MapRange(A.F, va / 4096, k, pa / 4096, perm)
      ensures ok ==> k == (va + size - 1) / 4096 - va / 4096 + 1
      ensures !ok ==> free == [] && k <= (va + size - 1) / 4096 - va / 4096
      ensures |old(free)| <= |free| + 2 * k + (if ok then 0 else 1)
    {
      var a, last, p := va / 4096, (va + size - 1) / 4096, pa / 4096;
      ok, A', k := MapRun(root, a, last, p, perm, A);
    }

    /** The loop of mappages(), over page numbers. */
    method MapRun(root: nat, first: nat, last: nat, frame: nat, perm: nat, ghost A: Space)
      returns (ok: bool, ghost A': Space, ghost k: nat)
      requires Sys(ph, free, A) && RootIs(A, root) && perm < 1024
      requires first <= last < NVPN && forall w :: first <= w <= last ==> w !in A.F
      modifies this
      ensures Sys(ph, free, A') && Evolved(old(ph).mem, old(free), A, ph.mem, free, A')
      ensures A'.F == MapRange(A.F, first, k, frame, perm)
      ensures if ok then k == last - first + 1 else free == [] && k <= last - first
      ensures |old(free)| <= |free| + 2 * k + (if ok then 0 else 1)
    {
      hide Implements, FreeOk;
      var a, p := first, frame;
      A', k := A, 0;
      while true
        invariant a == first + k && p == frame + k && a <= last
        invariant Sys(ph, free, A') && RootIs(A', root)
        invariant Evolved(old(ph).mem, old(free), A, ph.mem, free, A')
        invariant A'.F == MapRange(A.F, first, k, frame, perm) && |old(free)| <= |free| + 2 * k
        decreases last - a
      {
        ghost var mem0, free0, A0 := ph.mem, free, A';
        MapRangeStep(A.F, first, k, frame, perm, a, p);
        var r;
        r, A' := MapOne(root, a, p, perm, A0);
        EvolvedTransitive(old(ph).mem, old(free), A, mem0, free0, A0, ph.mem, free, A');
        if !r { return false, A', k; }
        k := k + 1;
        if a == last { return true, A', k; }
        a, p := a + 1, p + 1;
      }
    }

    /** One round of uvmunmap(). */
    method UnmapOne(root: nat, v: nat, doFree: bool, ghost A: Space)
      requires Sys(ph, free, A) && RootIs(A, root) && v < NVPN
      requires v in A.F && PteFlags(A.F[v]) != 1
      requires doFree ==> var p := PtePage(A.F[v]); p in ph.mem && p !in free && p !in A.T.Values
      modifies this
      ensures Sys(ph, free, Space(A.T, A.F - {v}))
      ensures var gone := if doFree then {PtePage(A.F[v])} else {};
              Pages(free) == Pages(old(free)) + gone && OnlyChanges(old(ph).mem, ph.mem, A.T.Values + gone)
    {
      assert FlatAt(ph.mem, A.T, A.F, v);
      var low, A1 := Walk(root, v, false, A);
      PxInRange(v);
      var pte := ph.mem[low][Px0(v)];
      assert low in A.T.Values;
      if doFree {
        ghost var ph0, free0 := ph, free;
        Kfree(PtePage(pte));
        KfreeSys(ph0, free0, ph, free, A, PtePage(pte));
      }
      PokeSys(ph, free, A, v, 0);
      ph := ph.(mem := Poke(ph.mem, low, Px0(v), 0));
    }

    /** uvmunmap(): remove the n mappings from page v, which exist, and free their frames if asked. */
    method Unmap(root: nat, v: nat, n: nat, doFree: bool, ghost A: Space) returns (ghost A': Space)
      requires Sys(ph, free, A) && RootIs(A, root) && v + n <= NVPN
      requires AllLeaves(A.F, v, v + n) && (doFree ==> OwnsFrames(ph, free, A, v, v + n))
      modifies this
      ensures A' == Space(A.T, A.F - Range(v, v + n))
      ensures Unmapped(old(ph), old(free), A, v, v + n, doFree, ph, free)
    {
      hide *;
      var a := v;
      UnmappedNone(ph, free, A, v, doFree);
      while a < v + n
        invariant v <= a <= v + n && Unmapped(old(ph), old(free), A, v, a, doFree, ph, free)
      {
        ghost var ph1, free1 := ph, free;
        UnmapReady(old(ph), old(free), A, v, v + n, a, doFree, ph, free);
        assert RootIs(Space(A.T, A.F - Range(v, a)), root) by { SameRoot(A, root, A.F - Range(v, a)); }
        UnmapOne(root, a, doFree, Space(A.T, A.F - Range(v, a)));
        UnmapStep(old(ph), old(free), A, v, a, doFree, ph1, free1, ph, free);
        a := a + 1;
      }
      A' := Space(A.T, A.F - Range(v, v + n));
    }

    /**
      The body shared by the loops of uvmalloc() and uvmcopy(): get a page, fill it, map it at page
      a; on failure give the page back.
    */
    method AddPage(root: nat, a: nat, content: Page, flags: nat, ghost A: Space, ghost s: Start, ghost v: nat)
      returns (ok: bool, ghost A': Space)
      requires v <= a < NVPN && Run(ph, free, A, s, v, a, {}) && RootIs(A, root)
      requires a !in A.F && 1 < flags < 1024 && flags % 2 == 1
      modifies this
      ensures RootIs(A', root)
      ensures ok ==> Run(ph, free, A', s, v, a + 1, {})
      ensures !ok ==> Run(ph, free, A', s, v, a, {}) && A'.F == A.F
      ensures ok ==> HasPage(ph.mem, A'.F, a, flags, content) && A'.F == A.F[a := A'.F[a]]
      ensures SameOn(old(ph).mem, ph.mem, Frames(A.F, v, a))
      ensures |old(free)| <= if ok then |free| + 3 else 2
    {
      hide Implements, FreeOk, Injective, Added, Extends, Account, Total;
      A' := A;
      ghost var ph0, free0 := ph, free;
      var q := Kalloc();
      if q == 0 { return false, A'; }
      ghost var phk := ph;
      ph := ph.(mem := ph.mem[q := content]);
      TookPage(ph0, free0, phk, ph, free, A, s, v, a, q, content);
      ghost var ph1, free1 := ph, free;
      ok, A' := MapOne(root, a, q, flags, A);
      if ok {
        MapAdded(ph1, free1, A, ph, free, A', s, v, a, q, flags);
      } else {
        MapFailed(ph1, free1, A, ph, free, A', s, v, a, q);
        ghost var ph2, free2 := ph, free;
        Kfree(q);
        GaveBack(ph2, free2, ph, free, A', s, v, a, q);
      }
    }

    /** Give back a run of pages: afterwards only table pages separate the space from its start. */
    method UndoRun(root: nat, v: nat, n: nat, ghost A: Space, ghost s: Start) returns (ghost A': Space)
      requires v + n <= NVPN && Run(ph, free, A, s, v, v + n, {}) && RootIs(A, root)
      modifies this
      ensures A' == Space(A.T, s.A.F) && Run(ph, free, A', s, v, v, {})
    {
      hide Implements, FreeOk, Injective, Added, Extends, Account, Total;
      RunOwns(ph, free, A, s, v, v + n);
      ghost var ph0, free0 := ph, free;
      A' := Unmap(root, v, n, true, A);
      RunUndone(ph0, free0, A, s, v, v + n, ph, free);
    }

    /**
      uvmalloc(): grow from oldsz to newsz bytes with zeroed user pages, or fail having only added
      table pages, which cannot happen while three pages per new page are free.
    */
    method Uvmalloc(root: nat, oldsz: nat, newsz: nat, ghost A: Space)
      returns (r: nat, ghost ok: bool, ghost A': Space)
      requires Sys(ph, free, A) && RootIs(A, root) && RoundUp(newsz) <= NVPN
      requires forall w :: RoundUp(oldsz) <= w < RoundUp(newsz) ==> w !in A.F
      modifies this
      ensures newsz < oldsz ==> r == oldsz && ph == old(ph) && free == old(free) && A' == A
      ensures newsz >= oldsz ==> r == if ok then newsz else 0
      ensures newsz >= oldsz && ok ==>
                && Run(ph, free, A', Start(old(ph).mem, old(free), A), RoundUp(oldsz), RoundUp(newsz), {})
                && Zeroed(ph.mem, A'.F, RoundUp(oldsz), RoundUp(newsz))
      ensures newsz >= oldsz && !ok ==>
                && Run(ph, free, A', Start(old(ph).mem, old(free), A), RoundUp(oldsz), RoundUp(oldsz), {})
                && A'.F == A.F && |old(free)| < 3 * (RoundUp(newsz) - RoundUp(oldsz))
    {
      A', ok := A, true;
      if newsz < oldsz { return oldsz, true, A'; }
      var grown;
      grown, A' := GrowRun(root, RoundUp(oldsz), RoundUp(newsz), A);
      ok := grown;
      r := if grown then newsz else 0;
    }

    /** The loop of uvmalloc(): zeroed pages from page v up to page e. */
    method GrowRun(root: nat, v: nat, e: nat, ghost A: Space) returns (ok: bool, ghost A': Space)
      requires Sys(ph, free, A) && RootIs(A, root) && v <= e <= NVPN
      requires forall w :: v <= w < e ==> w !in A.F
      modifies this
      ensures ok ==> Run(ph, free, A', Start(old(ph).mem, old(free), A), v, e, {}) && Zeroed(ph.mem, A'.F, v, e)
      ensures !ok ==> Run(ph, free, A', Start(old(ph).mem, old(free), A), v, v, {}) && A'.F == A.F
      ensures !ok ==> |old(free)| < 3 * (e - v)
    {
      hide *;
      ghost var s := Start(ph.mem, free, A);
      RunStart(ph, free, A, v);
      A' := A;
      var a := v;
      while a < e
        invariant v <= a <= e && RootIs(A', root)
        invariant Run(ph, free, A', s, v, a, {}) && Zeroed(ph.mem, A'.F, v, a)
        invariant |old(free)| <= |free| + 3 * (a - v)
      {
        ok, A' := GrowOne(root, v, a, A', s);
        if !ok { return; }
        a := a + 1;
      }
      ok := true;
    }

    /** One round of uvmalloc(), with its clean-up on failure. */
    method GrowOne(root: nat, v: nat, a: nat, ghost A: Space, ghost s: Start) returns (ok: bool, ghost A': Space)
      requires v <= a < NVPN && Run(ph, free, A, s, v, a, {}) && RootIs(A, root)
      requires a !in s.A.F && Zeroed(ph.mem, A.F, v, a)
      modifies this
      ensures ok ==> RootIs(A', root)
      ensures ok ==> Run(ph, free, A', s, v, a + 1, {}) && Zeroed(ph.mem, A'.F, v, a + 1)
      ensures !ok ==> Run(ph, free, A', s, v, v, {}) && A'.F == s.A.F
      ensures |old(free)| <= if ok then |free| + 3 else 2
    {
      hide *;
      ghost var mem0 := ph.mem;
      RunFresh(ph, free, A, s, v, a);
      ok, A' := AddPage(root, a, Filled(0), 31, A, s, v);
      if ok {
        ZeroedStep(mem0, A.F, ph.mem, A'.F, v, a);
      } else {
        A' := Shrink(root, v, a, A', s);
      }
    }

    /** The clean-up of uvmalloc(): uvmdealloc() back to where it began. */
    method Shrink(root: nat, v: nat, a: nat, ghost A: Space, ghost s: Start) returns (ghost A': Space)
      requires v <= a <= NVPN && Run(ph, free, A, s, v, a, {}) && RootIs(A, root)
      modifies this
      ensures A' == Space(A.T, s.A.F) && Run(ph, free, A', s, v, v, {})
    {
      hide *;
      RunOwns(ph, free, A, s, v, a);
      PageRounds(v);
      PageRounds(a);
      ghost var ph0, free0 := ph, free;
      var r;
      r, A' := Uvmdealloc(root, a * 4096, v * 4096, A);
      if v == a { RunEmpty(ph, free, A, s, v); } else { RunUndone(ph0, free0, A, s, v, a, ph, free); }
    }

    /** uvmdealloc(): shrink from oldsz to newsz bytes, freeing the pages in between. */
    method Uvmdealloc(root: nat, oldsz: nat, newsz: nat, ghost A: Space) returns (r: nat, ghost A': Space)
      requires Sys(ph, free, A) && RootIs(A, root) && RoundUp(oldsz) <= NVPN
      requires newsz < oldsz ==> OwnsFrames(ph, free, A, RoundUp(newsz), RoundUp(oldsz))
      requires newsz < oldsz ==> AllLeaves(A.F, RoundUp(newsz), RoundUp(oldsz))
      modifies this
      ensures r == if newsz >= oldsz then oldsz else newsz
      ensures newsz >= oldsz ==> ph == old(ph) && free == old(free) && A' == A
      ensures newsz < oldsz ==> A' == Space(A.T, A.F - Range(RoundUp(newsz), RoundUp(oldsz)))
      ensures newsz < oldsz ==>
                Unmapped(old(ph), old(free), A, RoundUp(newsz), RoundUp(oldsz), true, ph, free)
    {
      hide *;
      A' := A;
      if newsz >= oldsz { return oldsz, A'; }
      RoundUpMonotone(newsz, oldsz);
      var lo, hi := RoundUp(newsz), RoundUp(oldsz);
      if lo < hi {
        var n := hi - lo;
        assert lo + n == hi;
        A' := Unmap(root, lo, n, true, A);
      } else {
        UnmappedNone(ph, free, A, lo, true);
        A' := Space(A.T, A.F - Range(lo, lo));
      }
      r := newsz;
    }

    /**
      uvmcopy(): map copies of the first pages of the space P into A, with the same flags, or fail
      for lack of pages, having only added table pages to A.
    */
    method Uvmcopy(oldRoot: nat, newRoot: nat, sz: nat, ghost P: Space, ghost A: Space)
      returns (ok: bool, ghost A': Space)
      requires Sys(ph, free, A) && RootIs(A, newRoot) && RootIs(P, oldRoot) && RoundUp(sz) <= NVPN
      requires Beside(ph.mem, P, Pages(free) + A.T.Values, RoundUp(sz))
      requires forall w :: 0 <= w < RoundUp(sz) ==> w !in A.F
      modifies this
      ensures ok ==> RootIs(A', newRoot)
      ensures ok ==> Run(ph, free, A', Start(old(ph).mem, old(free), A), 0, RoundUp(sz), {})
      ensures ok ==> Copied(ph.mem, A'.F, old(ph).mem, P.F, RoundUp(sz))
      ensures !ok ==> RootIs(A', newRoot)
      ensures !ok ==> Run(ph, free, A', Start(old(ph).mem, old(free), A), 0, 0, {}) && A'.F == A.F
      ensures !ok ==> |old(free)| < 3 * RoundUp(sz)
    {
      hide *;
      ghost var s := Start(ph.mem, free, A);
      RunStart(ph, free, A, 0);
      TotalIs(s);
      CopiedNone(ph.mem, A.F, P.F);
      A' := A;
      var i := 0;
      while i < RoundUp(sz)
        invariant i <= RoundUp(sz) && RootIs(A', newRoot)
        invariant Run(ph, free, A', s, 0, i, {}) && Copied(ph.mem, A'.F, s.mem, P.F, i)
        invariant |old(free)| <= |free| + 3 * i
      {
        ok, A' := CopyOne(oldRoot, newRoot, i, RoundUp(sz), P, A', s);
        if !ok { return; }
        i := i + 1;
      }
      ok := true;
    }

    /** One round of uvmcopy(), with its clean-up on failure. */
    method CopyOne(oldRoot: nat, newRoot: nat, i: nat, n: nat, ghost P: Space, ghost A: Space, ghost s: Start)
      returns (ok: bool, ghost A': Space)
      requires i < n <= NVPN && Run(ph, free, A, s, 0, i, {}) && RootIs(A, newRoot) && RootIs(P, oldRoot)
      requires Beside(s.mem, P, Total(s), n) && i !in s.A.F && Copied(ph.mem, A.F, s.mem, P.F, i)
      modifies this
      ensures RootIs(A', newRoot)
      ensures ok ==> Run(ph, free, A', s, 0, i + 1, {}) && Copied(ph.mem, A'.F, s.mem, P.F, i + 1)
      ensures !ok ==> Run(ph, free, A', s, 0, 0, {}) && A'.F == s.A.F
      ensures |old(free)| <= if ok then |free| + 3 else 2
    {
      hide *;
      ghost var mem0 := ph.mem;
      RunFresh(ph, free, A, s, 0, i);
      SourceReady(ph, free, A, s, P, n, i);
      var low, _ := Walk(oldRoot, i, false, P);
      var pte := ph.mem[low][Px0(i)];
      ok, A' := AddPage(newRoot, i, ph.mem[PtePage(pte)], PteFlags(pte), A, s, 0);
      if ok {
        CopiedStep(mem0, A.F, ph.mem, A'.F, s.mem, P.F, i);
      } else {
        SameRoot(A', newRoot, s.A.F);
        A' := UndoRun(newRoot, 0, i, A', s);
      }
    }

    /**
      freewalk(): give back the table page of node n and all table pages below it. The entries it
      reads are those of the tree, all leaf entries being invalid.
    */
    method FreeWalk(pagetable: nat, ghost T: Tree, ghost n: Node)
      requires FreeOk(ph, free) && 0 !in ph.mem && TreeShape(T) && n in T && T[n] == pagetable
      requires SubOk(ph.mem, T, n) && Pages(free) !! Below(T, n)
      modifies this
      ensures FreeOk(ph, free) && Pages(free) == Pages(old(free)) + Below(T, n)
      ensures OnlyChanges(old(ph).mem, ph.mem, Below(T, n))
      decreases Height(n)
    {
      hide *;
      ghost var s := Start(ph.mem, free, Space(T, map[]));
      FreeingNone(ph, free, s, n);
      for i := 0 to ENTRIES
        invariant Freeing(ph, free, s, n, i)
      {
        FreeingEntry(ph, free, s, n, i);
        var pte := ph.mem[pagetable][i];
        if PteV(pte) && PteFlags(pte) / 2 % 8 == 0 {
          ghost var c := Child(n, i);
          ChildReady(ph, free, s, n, i);
          ghost var ph1, free1 := ph, free;
          FreeWalk(PtePage(pte), T, c);
          FreeingChild(ph1, free1, s, n, i, ph, free);
          ph := ph.(mem := Poke(ph.mem, pagetable, i, 0));
        } else if PteV(pte) {
          assert false;
        } else {
          FreeingSkip(ph, free, s, n, i);
        }
      }
      FreeingDone(ph, free, s, n);
      ghost var ph2, free2 := ph, free;
      Kfree(pagetable);
      FreedAll(ph2, free2, s, n, ph, free);
    }

    /** uvmcreate(): an empty page table, or 0 when no page is free. */
    method Uvmcreate() returns (root: nat, ghost A: Space)
      requires FreeOk(ph, free) && 0 !in ph.mem
      modifies this
      ensures old(free) == [] ==> root == 0 && ph == old(ph) && free == old(free)
      ensures old(free) != [] ==> root != 0 && A == Space(map[Root := root], map[]) && Sys(ph, free, A)
      ensures old(free) != [] ==> Pages(old(free)) == Pages(free) + {root} && |old(free)| == |free| + 1
      ensures old(free) != [] ==> OnlyChanges(old(ph).mem, ph.mem, {root})
    {
      A := Space(map[], map[]);
      root := Kalloc();
      if root == 0 { return; }
      ghost var ph1 := ph;
      ph := ph.(mem := ph.mem[root := Filled(0)]);
      A := Space(map[Root := root], map[]);
      BlankSpace(ph1, ph, free, root);
    }

    /** uvmfree(): give back the user frames and then all table pages. */
    method Uvmfree(root: nat, sz: nat, ghost A: Space)
      requires Sys(ph, free, A) && RootIs(A, root) && RoundUp(sz) <= NVPN && OnlyUser(A.F, RoundUp(sz))
      requires OwnsFrames(ph, free, A, 0, RoundUp(sz))
      modifies this
      ensures FreeOk(ph, free) && Pages(free) == Pages(old(free)) + A.T.Values + Frames(A.F, 0, RoundUp(sz))
      ensures OnlyChanges(old(ph).mem, ph.mem, A.T.Values + Frames(A.F, 0, RoundUp(sz)))
    {
      hide *;
      OnlyUserLeaves(A.F, RoundUp(sz));
      UnmappedNone(ph, free, A, 0, true);
      ghost var B := Space(A.T, A.F - Range(0, 0));
      if sz > 0 {
        B := Unmap(root, 0, RoundUp(sz), true, A);
      } else {
        PageRounds(0);
      }
      ghost var ph1, free1 := ph, free;
      EmptyTree(old(ph), old(free), A, RoundUp(sz), ph, free);
      assert Root in A.T && A.T[Root] == root by { RootThere(A, root); }
      FreeWalk(root, A.T, Root);
      AllFreed(old(ph), old(free), A, RoundUp(sz), ph1, free1, ph, free);
    }
  }

  /** The pages from v up to e are mapped to distinct frames that are neither free nor table pages. */
  ghost predicate OwnsFrames(ph: Phys, fs: seq<nat>, A: Space, v: nat, e: nat) {
    && (forall w :: Within(v, e, w) && w in A.F ==>
          PtePage(A.F[w]) in ph.mem && PtePage(A.F[w]) !in fs && PtePage(A.F[w]) !in A.T.Values)
    && Injective(A.F, v, e)
  }

  /** The pages from v up to e all have leaf entries. */
  ghost predicate AllLeaves(F: map<nat, nat>, v: nat, e: nat) {
    forall w :: Within(v, e, w) ==> w in F && PteFlags(F[w]) != 1
  }

  lemma UnmappedNone(ph: Phys, fs: seq<nat>, A: Space, v: nat, doFree: bool)
    requires Sys(ph, fs, A)
    ensures Unmapped(ph, fs, A, v, v, doFree, ph, fs)
  {
    assert A.F - Range(v, v) == A.F && Frames(A.F, v, v) == {};
  }

  ghost function Gone(A: Space, v: nat, e: nat, doFree: bool): set<nat> {
    if doFree then Frames(A.F, v, e) else {}
  }

  /** The state after uvmunmap() has removed the pages from v up to e. */
  ghost predicate Unmapped(ph0: Phys, fs0: seq<nat>, A: Space, v: nat, e: nat, doFree: bool, ph: Phys, fs: seq<nat>) {
    && Sys(ph, fs, Space(A.T, A.F - Range(v, e)))
    && Pages(fs) == Pages(fs0) + Gone(A, v, e, doFree)
    && OnlyChanges(ph0.mem, ph.mem, A.T.Values + Gone(A, v, e, doFree))
  }

  lemma SameRoot(A: Space, root: nat, F: map<nat, nat>)
    requires RootIs(A, root)
    ensures RootIs(Space(A.T, F), root)
  {
  }

  /** The next page to be unmapped is mapped, and its frame is not yet free. */
  lemma UnmapReady(ph0: Phys, fs0: seq<nat>, A: Space, v: nat, e: nat, a: nat, doFree: bool, ph: Phys, fs: seq<nat>)
    requires v <= a < e && AllLeaves(A.F, v, e) && (doFree ==> OwnsFrames(ph0, fs0, A, v, e))
    requires Unmapped(ph0, fs0, A, v, a, doFree, ph, fs)
    ensures a in A.F && a in A.F - Range(v, a) && PteFlags(A.F[a]) != 1
    ensures Sys(ph, fs, Space(A.T, A.F - Range(v, a)))
    ensures doFree ==> PtePage(A.F[a]) in ph.mem && PtePage(A.F[a]) !in fs && PtePage(A.F[a]) !in A.T.Values
  {
    assert Within(v, e, a);
    RangeStep(A.F, v, a);
    if doFree { FreeStep(ph0, fs0, A, v, e, a, ph, fs); }
  }

  lemma UnmapStep(ph0: Phys, fs0: seq<nat>, A: Space, v: nat, a: nat, doFree: bool, ph1: Phys, fs1: seq<nat>,
                  ph: Phys, fs: seq<nat>)
    requires v <= a && a in A.F && Unmapped(ph0, fs0, A, v, a, doFree, ph1, fs1)
    requires Sys(ph, fs, Space(A.T, A.F - Range(v, a) - {a}))
    requires var gone := if doFree then {PtePage(A.F[a])} else {};
             Pages(fs) == Pages(fs1) + gone && OnlyChanges(ph1.mem, ph.mem, A.T.Values + gone)
    ensures Unmapped(ph0, fs0, A, v, a + 1, doFree, ph, fs)
  {
    RangeStep(A.F, v, a);
  }

  lemma RangeStep(F: map<nat, nat>, v: nat, a: nat)
    requires v <= a && a in F
    ensures F - Range(v, a + 1) == F - Range(v, a) - {a}
    ensures a in F - Range(v, a)
    ensures Frames(F, v, a + 1) == Frames(F, v, a) + {PtePage(F[a])}
  {
    assert Within(v, a + 1, a);
    forall w | w in F && Within(v, a, w) ensures Within(v, a + 1, w) {}
  }

  /** The next frame to be freed is not yet free. */
  lemma FreeStep(ph0: Phys, fs0: seq<nat>, A: Space, v: nat, e: nat, a: nat, ph: Phys, fs: seq<nat>)
    requires OwnsFrames(ph0, fs0, A, v, e) && v <= a < e && a in A.F
    requires ph.mem.Keys == ph0.mem.Keys && Pages(fs) == Pages(fs0) + Frames(A.F, v, a)
    ensures PtePage(A.F[a]) in ph.mem && PtePage(A.F[a]) !in fs && PtePage(A.F[a]) !in A.T.Values
  {
    assert Within(v, e, a);
    forall w | w in A.F && Within(v, a, w) ensures PtePage(A.F[w]) != PtePage(A.F[a]) {
      assert Within(v, e, w) && TwoFrames(A.F, w, a);
    }
    assert PtePage(A.F[a]) !in Pages(fs);
  }

  lemma KfreeSys(ph: Phys, fs: seq<nat>, ph': Phys, fs': seq<nat>, A: Space, p: nat)
    requires Sys(ph, fs, A) && p !in A.T.Values && FreeOk(ph', fs')
    requires Pages(fs') == {p} + Pages(fs) && OnlyChanges(ph.mem, ph'.mem, {p})
    ensures Sys(ph', fs', A)
  {
    forall n | n in A.T ensures ph'.mem[A.T[n]] == ph.mem[A.T[n]] { assert A.T[n] in A.T.Values; }
    TreeFrame(ph.mem, ph'.mem, A.T, A.F);
  }

  /** Storing a leaf entry. */
  lemma PokeSys(ph: Phys, fs: seq<nat>, A: Space, v: nat, e: nat)
    requires Sys(ph, fs, A) && v < NVPN && LowOf(v) in A.T
    ensures Px0(v) < ENTRIES && A.T[LowOf(v)] in ph.mem
    ensures Sys(Phys(Poke(ph.mem, A.T[LowOf(v)], Px0(v), e), ph.freelist), fs,
                A.(F := if PteV(e) then A.F[v := e] else A.F - {v}))
  {
    PokeLeaf(ph.mem, A.T, A.F, v, e);
    assert A.T[LowOf(v)] in A.T.Values;
    FreeFrameSet(ph, fs, Poke(ph.mem, A.T[LowOf(v)], Px0(v), e), A.T.Values);
  }

  lemma PokeChanges(mem: Mem, fs: seq<nat>, A: Space, mem0: Mem, fs0: seq<nat>, A0: Space, v: nat, e: nat)
    requires Grown(fs, A, fs0, A0) && OnlyChanges(mem, mem0, Pages(fs) + A.T.Values)
    requires LowOf(v) in A0.T && A0.T[LowOf(v)] in mem0 && Px0(v) < ENTRIES
    ensures OnlyChanges(mem, Poke(mem0, A0.T[LowOf(v)], Px0(v), e), Pages(fs) + A.T.Values)
  {
    assert A0.T[LowOf(v)] in A0.T.Values;
  }

  lemma TableThere(ph: Phys, fs: seq<nat>, A: Space, n: Node)
    requires Sys(ph, fs, A) && n in A.T
    ensures A.T[n] in ph.mem && A.T[n] != 0
  {
  }

  /** The entry walk() reads at each level points to the next table page, if there is one. */
  lemma WalkEntry(mem: Mem, T: Tree, F: map<nat, nat>, v: nat, level: nat)
    requires Implements(mem, T, F) && v < NVPN && 1 <= level <= 2 && NodeAt(v, level) in T
    ensures T[NodeAt(v, level)] in mem && PxAt(v, level) < ENTRIES
    ensures EntryFor(mem[T[NodeAt(v, level)]][PxAt(v, level)], T, NodeAt(v, level - 1))
  {
    PxInRange(v);
  }

  /** Where the entry of a mapped page is. */
  lemma LeafThere(mem: Mem, T: Tree, F: map<nat, nat>, v: nat)
    requires Implements(mem, T, F) && v in F
    ensures v < NVPN && Px0(v) < ENTRIES && LowOf(v) in T && T[LowOf(v)] in mem
    ensures mem[T[LowOf(v)]][Px0(v)] == F[v] && PteV(F[v])
  {
    assert FlatAt(mem, T, F, v);
    PxInRange(v);
  }

  /** A missing table page means there is no level-0 table for v. */
  lemma NoLow(mem: Mem, T: Tree, F: map<nat, nat>, v: nat, level: nat)
    requires Implements(mem, T, F) && level <= 1 && NodeAt(v, level) !in T
    ensures LowOf(v) !in T
  {
  }

  lemma AfterKalloc(mem: Mem, fs: seq<nat>, ph: Phys, fs': seq<nat>, A: Space, q: nat)
    requires 0 !in mem && Implements(mem, A.T, A.F) && Pages(fs) !! A.T.Values
    requires Pages(fs) == {q} + Pages(fs') && q !in Pages(fs') && FreeOk(ph, fs')
    requires q in mem && ph.mem == mem[q := Filled(0x0505_0505_0505_0505)]
    ensures Sys(ph, fs', A) && q in ph.mem && q !in A.T.Values && q !in fs'
  {
    forall n | n in A.T ensures ph.mem[A.T[n]] == mem[A.T[n]] { assert A.T[n] in A.T.Values; }
    TreeFrame(mem, ph.mem, A.T, A.F);
  }

  // ----- growing a run of user pages -----

  /** Where an operation began: memory, free list and address space. */
  datatype Start = Start(mem: Mem, fs: seq<nat>, A: Space)

  ghost function Total(s: Start): set<nat> { Pages(s.fs) + s.A.T.Values }

  /** Free pages, table pages, user frames and a page in hand are disjoint and make up all. */
  ghost predicate Account(all: set<nat>, fs: set<nat>, tables: set<nat>, frames: set<nat>, hand: set<nat>) {
    all == fs + tables + frames + hand && fs !! tables !! frames !! hand
  }

  predicate TwoFrames(F: map<nat, nat>, w: nat, x: nat) {
    w in F && x in F && w != x ==> PtePage(F[w]) != PtePage(F[x])
  }

  ghost predicate Injective(F: map<nat, nat>, v: nat, e: nat) {
    forall w, x {:trigger TwoFrames(F, w, x)} :: Within(v, e, w) && Within(v, e, x) ==> TwoFrames(F, w, x)
  }

  /** F is F0 with leaf entries for the pages from v up to e, which F0 does not map. */
  ghost predicate Added(F: map<nat, nat>, F0: map<nat, nat>, v: nat, e: nat) {
    && (forall w :: Within(v, e, w) ==> w in F && PteFlags(F[w]) != 1 && w !in F0)
    && (forall w :: !Within(v, e, w) ==> (w in F <==> w in F0) && (w in F ==> F[w] == F0[w]))
  }

  ghost predicate Extends(T: Tree, T0: Tree) { forall m :: m in T0 ==> m in T && T[m] == T0[m] }

  /**
    Since the start, the pages from v up to e were mapped to frames taken from the free list, table
    pages may have been added, and every page is accounted for.
  */
  ghost predicate Run(ph: Phys, fs: seq<nat>, A: Space, s: Start, v: nat, e: nat, hand: set<nat>) {
    && Sys(ph, fs, A) && Injective(A.F, v, e) && Added(A.F, s.A.F, v, e) && Extends(A.T, s.A.T)
    && Account(Total(s), Pages(fs), A.T.Values, Frames(A.F, v, e), hand)
    && Total(s) <= ph.mem.Keys && OnlyChanges(s.mem, ph.mem, Total(s))
  }

  ghost predicate SameOn(mem: Mem, mem': Mem, ps: set<nat>) {
    forall p :: p in ps && p in mem ==> p in mem' && mem'[p] == mem[p]
  }

  /** kalloc() puts a page in hand, and filling it touches nothing else. */
  lemma TookPage(ph: Phys, fs: seq<nat>, phk: Phys, ph': Phys, fs': seq<nat>, A: Space, s: Start, v: nat, e: nat,
                 q: nat, content: Page)
    requires Run(ph, fs, A, s, v, e, {}) && FreeOk(phk, fs')
    requires Pages(fs) == {q} + Pages(fs') && q !in Pages(fs') && q in ph.mem && q in phk.mem
    requires phk.mem == ph.mem[q := phk.mem[q]] && ph' == Phys(phk.mem[q := content], phk.freelist)
    ensures Run(ph', fs', A, s, v, e, {q})
    ensures SameOn(ph.mem, ph'.mem, Frames(A.F, v, e))
  {
    FreeFrameSet(phk, fs', ph'.mem, {q});
    forall m | m in A.T ensures ph'.mem[A.T[m]] == ph.mem[A.T[m]] { assert A.T[m] in A.T.Values; }
    TreeFrame(ph.mem, ph'.mem, A.T, A.F);
  }

  /** kfree() of the page in hand. */
  lemma GaveBack(ph: Phys, fs: seq<nat>, ph': Phys, fs': seq<nat>, A: Space, s: Start, v: nat, e: nat, q: nat)
    requires Run(ph, fs, A, s, v, e, {q}) && FreeOk(ph', fs')
    requires Pages(fs') == {q} + Pages(fs) && OnlyChanges(ph.mem, ph'.mem, {q})
    ensures Run(ph', fs', A, s, v, e, {})
    ensures SameOn(ph.mem, ph'.mem, Frames(A.F, v, e))
  {
    KfreeSys(ph, fs, ph', fs', A, q);
  }

  /** A failed mapping may have added table pages but changes no translation. */
  lemma MapFailed(ph: Phys, fs: seq<nat>, A: Space, ph': Phys, fs': seq<nat>, A': Space, s: Start, v: nat, e: nat, q: nat)
    requires Run(ph, fs, A, s, v, e, {q}) && Sys(ph', fs', A') && A'.F == A.F
    requires Evolved(ph.mem, fs, A, ph'.mem, fs', A')
    ensures Run(ph', fs', A', s, v, e, {q})
    ensures q in ph'.mem && q != 0 && q !in fs'
    ensures SameOn(ph.mem, ph'.mem, Frames(A.F, v, e))
  {
    assert q in Total(s);
  }

  /** A successful mapping turns the page in hand into the frame of page a. */
  lemma MapAdded(ph: Phys, fs: seq<nat>, A: Space, ph': Phys, fs': seq<nat>, A': Space, s: Start, v: nat, a: nat,
                 q: nat, flags: nat)
    requires v <= a && Run(ph, fs, A, s, v, a, {q}) && Sys(ph', fs', A') && a !in A.F
    requires 1 < flags < 1024 && flags % 2 == 1
    requires A'.F == A.F[a := MkPte(q, flags)] && Evolved(ph.mem, fs, A, ph'.mem, fs', A')
    ensures Run(ph', fs', A', s, v, a + 1, {}) && q in ph.mem
    ensures HasPage(ph'.mem, A'.F, a, flags, ph.mem[q])
    ensures SameOn(ph.mem, ph'.mem, Frames(A.F, v, a))
  {
    FramesAdd(A.F, v, a, MkPte(q, flags));
    FlatAdd(A.F, s.A.F, v, a, MkPte(q, flags));
    assert q in Total(s);
  }

  /** A fresh frame for the next page keeps the run injective. */
  lemma FlatAdd(F: map<nat, nat>, F0: map<nat, nat>, v: nat, a: nat, pte: nat)
    requires v <= a && a !in F && Injective(F, v, a) && Added(F, F0, v, a)
    requires PteFlags(pte) != 1 && PtePage(pte) !in Frames(F, v, a)
    ensures Injective(F[a := pte], v, a + 1) && Added(F[a := pte], F0, v, a + 1)
  {
    var G := F[a := pte];
    assert !Within(v, a, a);
    forall w, x | Within(v, a + 1, w) && Within(v, a + 1, x) ensures TwoFrames(G, w, x) {
      assert w != a ==> Within(v, a, w) && PtePage(F[w]) in Frames(F, v, a);
      assert x != a ==> Within(v, a, x) && PtePage(F[x]) in Frames(F, v, a);
      assert w != a && x != a ==> TwoFrames(F, w, x);
    }
    forall w | Within(v, a + 1, w) ensures w in G && PteFlags(G[w]) != 1 && w !in F0 {
      if w != a { assert Within(v, a, w); }
    }
    forall w | !Within(v, a + 1, w) ensures (w in G <==> w in F0) && (w in G ==> G[w] == F0[w]) {
      assert !Within(v, a, w);
    }
  }

  lemma FramesAdd(F: map<nat, nat>, v: nat, a: nat, pte: nat)
    requires v <= a && a !in F
    ensures Frames(F[a := pte], v, a + 1) == Frames(F, v, a) + {PtePage(pte)}
  {
    var G := F[a := pte];
    assert Within(v, a + 1, a);
    forall p | p in Frames(F, v, a) ensures p in Frames(G, v, a + 1) {
      var w :| w in F && Within(v, a, w) && PtePage(F[w]) == p;
      assert w in G && Within(v, a + 1, w);
    }
    forall p | p in Frames(G, v, a + 1) ensures p in Frames(F, v, a) + {PtePage(pte)} {
      var w :| w in G && Within(v, a + 1, w) && PtePage(G[w]) == p;
      if w != a { assert w in F && Within(v, a, w); }
    }
  }

  function RoundUp(sz: nat): (v: nat)
    ensures v * 4096 >= sz && (v > 0 ==> (v - 1) * 4096 < sz)
  {
    (sz + 4095) / 4096
  }

  lemma PageRounds(v: nat)
    ensures RoundUp(v * 4096) == v
  {
  }

  lemma RoundUpMonotone(x: nat, y: nat)
    requires x <= y
    ensures RoundUp(x) <= RoundUp(y)
  {
  }

  /** Page w is mapped with these flags to a frame with this content. */
  ghost predicate HasPage(mem: Mem, F: map<nat, nat>, w: nat, flags: nat, content: Page) {
    w in F && PteFlags(F[w]) == flags && PtePage(F[w]) in mem && mem[PtePage(F[w])] == content
  }

  lemma RunStart(ph: Phys, fs: seq<nat>, A: Space, v: nat)
    requires Sys(ph, fs, A)
    ensures Run(ph, fs, A, Start(ph.mem, fs, A), v, v, {})
    ensures Zeroed(ph.mem, A.F, v, v)
  {
    forall p | p in Pages(fs) + A.T.Values ensures p in ph.mem {
      if p in Pages(fs) { var i :| 0 <= i < |fs| && fs[i] == p; assert NextFree(ph.mem, fs, i); }
    }
    assert Frames(A.F, v, v) == {};
  }

  lemma RunOwns(ph: Phys, fs: seq<nat>, A: Space, s: Start, v: nat, e: nat)
    requires Run(ph, fs, A, s, v, e, {})
    ensures OwnsFrames(ph, fs, A, v, e)
    ensures AllLeaves(A.F, v, e) && Sys(ph, fs, A)
  {
    forall w | Within(v, e, w) && w in A.F
      ensures PtePage(A.F[w]) in ph.mem && PtePage(A.F[w]) !in fs && PtePage(A.F[w]) !in A.T.Values
    {
      assert PtePage(A.F[w]) in Frames(A.F, v, e);
      assert PtePage(A.F[w]) in Total(s);
    }
  }

  lemma RunEmpty(ph: Phys, fs: seq<nat>, A: Space, s: Start, v: nat)
    requires Run(ph, fs, A, s, v, v, {})
    ensures A == Space(A.T, s.A.F)
  {
    assert A.F == s.A.F;
  }

  lemma RunUndone(ph0: Phys, fs0: seq<nat>, A: Space, s: Start, v: nat, e: nat, ph: Phys, fs: seq<nat>)
    requires Run(ph0, fs0, A, s, v, e, {}) && Unmapped(ph0, fs0, A, v, e, true, ph, fs)
    ensures A.F - Range(v, e) == s.A.F
    ensures Run(ph, fs, Space(A.T, s.A.F), s, v, v, {})
  {
    assert A.F - Range(v, e) == s.A.F;
    assert Frames(s.A.F, v, v) == {};
  }

  ghost predicate Zeroed(mem: Mem, F: map<nat, nat>, v: nat, e: nat) {
    forall w :: Within(v, e, w) ==> HasPage(mem, F, w, 31, Filled(0))
  }

  lemma ZeroedStep(mem: Mem, F: map<nat, nat>, mem': Mem, F': map<nat, nat>, v: nat, a: nat)
    requires v <= a && a in F' && F' == F[a := F'[a]] && SameOn(mem, mem', Frames(F, v, a))
    requires Zeroed(mem, F, v, a) && HasPage(mem', F', a, 31, Filled(0))
    ensures Zeroed(mem', F', v, a + 1)
  {
    forall w | Within(v, a + 1, w) ensures HasPage(mem', F', w, 31, Filled(0)) {
      if w != a { assert Within(v, a, w); PageKept(mem, F, mem', F', v, a, w); }
    }
  }

  /** Adding page a leaves the pages before it as they were. */
  lemma PageKept(mem: Mem, F: map<nat, nat>, mem': Mem, F': map<nat, nat>, v: nat, a: nat, w: nat)
    requires a in F' && F' == F[a := F'[a]] && SameOn(mem, mem', Frames(F, v, a))
    requires v <= w < a && w in F && PtePage(F[w]) in mem
    ensures HasPage(mem', F', w, PteFlags(F[w]), mem[PtePage(F[w])])
  {
    assert Within(v, a, w) && PtePage(F[w]) in Frames(F, v, a);
  }

  /** The next page of a run is unmapped when the start did not map it. */
  lemma RunFresh(ph: Phys, fs: seq<nat>, A: Space, s: Start, v: nat, a: nat)
    requires Run(ph, fs, A, s, v, a, {}) && a !in s.A.F
    ensures a !in A.F
  {
    assert !Within(v, a, a);
  }

  // ----- copying an address space -----

  /** The space P, whose first n pages are leaves, shares nothing with the pages own. */
  ghost predicate Beside(mem: Mem, P: Space, own: set<nat>, n: nat) {
    && Implements(mem, P.T, P.F) && P.T.Values !! own && AllLeaves(P.F, 0, n)
    && forall w :: Within(0, n, w) ==> w in P.F && PtePage(P.F[w]) in mem && PtePage(P.F[w]) !in own
  }

  /** The first n pages of F hold what those of G held in mem0, with the same flags. */
  ghost predicate Copied(mem: Mem, F: map<nat, nat>, mem0: Mem, G: map<nat, nat>, n: nat) {
    forall w :: Within(0, n, w) ==>
      w in G && PtePage(G[w]) in mem0 && HasPage(mem, F, w, PteFlags(G[w]), mem0[PtePage(G[w])])
  }

  lemma TotalIs(s: Start)
    ensures Total(s) == Pages(s.fs) + s.A.T.Values
  {
  }

  /** A space beside a run is as it was at the start of the run. */
  lemma BesideKept(mem: Mem, mem': Mem, P: Space, own: set<nat>, n: nat)
    requires Beside(mem, P, own, n) && OnlyChanges(mem, mem', own)
    ensures Beside(mem', P, own, n)
    ensures forall w :: Within(0, n, w) ==> w in P.F && PtePage(P.F[w]) in mem'
                                             && mem'[PtePage(P.F[w])] == mem[PtePage(P.F[w])]
  {
    forall m | m in P.T ensures mem'[P.T[m]] == mem[P.T[m]] { assert P.T[m] in P.T.Values; }
    TreeFrame(mem, mem', P.T, P.F);
  }

  lemma SourceReady(ph: Phys, fs: seq<nat>, A: Space, s: Start, P: Space, n: nat, i: nat)
    requires Run(ph, fs, A, s, 0, i, {}) && Beside(s.mem, P, Total(s), n) && i < n <= NVPN
    ensures Sys(ph, fs, P) && i in P.F && 1 < PteFlags(P.F[i]) < 1024 && PteFlags(P.F[i]) % 2 == 1
    ensures LowOf(i) in P.T && P.T[LowOf(i)] in ph.mem && P.T[LowOf(i)] != 0 && Px0(i) < ENTRIES
    ensures ph.mem[P.T[LowOf(i)]][Px0(i)] == P.F[i]
    ensures PtePage(P.F[i]) in ph.mem && PtePage(P.F[i]) in s.mem
    ensures ph.mem[PtePage(P.F[i])] == s.mem[PtePage(P.F[i])]
  {
    hide Run, Implements, OnlyChanges, FreeOk, Total, Pages, TreeOk;
    RunChanges(ph, fs, A, s, 0, i);
    BesideKept(s.mem, ph.mem, P, Total(s), n);
    assert Within(0, n, i);
    LeafThere(ph.mem, P.T, P.F, i);
  }

  lemma RunChanges(ph: Phys, fs: seq<nat>, A: Space, s: Start, v: nat, e: nat)
    requires Run(ph, fs, A, s, v, e, {})
    ensures OnlyChanges(s.mem, ph.mem, Total(s)) && Pages(fs) <= Total(s) && FreeOk(ph, fs) && 0 !in ph.mem
  {
  }

  lemma CopiedNone(mem: Mem, F: map<nat, nat>, G: map<nat, nat>)
    ensures Copied(mem, F, mem, G, 0)
  {
  }

  lemma CopiedStep(mem: Mem, F: map<nat, nat>, mem': Mem, F': map<nat, nat>, mem0: Mem, G: map<nat, nat>, i: nat)
    requires i in F' && F' == F[i := F'[i]] && SameOn(mem, mem', Frames(F, 0, i)) && Copied(mem, F, mem0, G, i)
    requires i in G && PtePage(G[i]) in mem0 && HasPage(mem', F', i, PteFlags(G[i]), mem0[PtePage(G[i])])
    ensures Copied(mem', F', mem0, G, i + 1)
  {
    forall w | Within(0, i + 1, w)
      ensures w in G && PtePage(G[w]) in mem0 && HasPage(mem', F', w, PteFlags(G[w]), mem0[PtePage(G[w])])
    {
      if w != i { assert Within(0, i, w); PageKept(mem, F, mem', F', 0, i, w); }
    }
  }

  // ----- freeing the table pages -----

  function Height(n: Node): nat {
    match n
    case Root => 2
    case Mid(_) => 1
    case Low(_, _) => 0
  }

  /** The node that entry k of a table above level 0 points to. */
  function Child(n: Node, k: nat): Node
    requires !n.Low?
  {
    match n
    case Root => Mid(k)
    case Mid(i) => Low(i, k)
  }

  /** Node m is n or lies below it. */
  predicate Under(n: Node, m: Node) {
    match n
    case Root => true
    case Mid(i) => m == n || (m.Low? && m.i == i)
    case Low(_, _) => m == n
  }

  /** Node m lies below n, through an entry before k. */
  predicate Before(n: Node, m: Node, k: nat) {
    match n
    case Root => !m.Root? && m.i < k
    case Mid(i) => m.Low? && m.i == i && m.j < k
    case Low(_, _) => false
  }

  ghost function Below(T: Tree, n: Node): (s: set<nat>) { set m | m in T && Under(n, m) :: T[m] }

  ghost function BelowFirst(T: Tree, n: Node, k: nat): (s: set<nat>) { set m | m in T && Before(n, m, k) :: T[m] }

  /** No table page is shared, and every table hangs from one above it. */
  ghost predicate TreeShape(T: Tree) {
    && Unshared(T)
    && (forall n :: n in T ==> InRange(n))
    && (forall i, j :: Low(i, j) in T ==> Mid(i) in T)
  }

  /** Entry k of table n is as the tree says, and is no leaf. */
  ghost predicate NodeEntry(mem: Mem, T: Tree, n: Node, k: nat)
    requires k < ENTRIES && n in T && T[n] in mem
  {
    if n.Low? then !PteV(mem[T[n]][k]) else EntryFor(mem[T[n]][k], T, Child(n, k))
  }

  ghost predicate NodeOk(mem: Mem, T: Tree, n: Node, k: nat)
    requires n in T
  {
    T[n] in mem && forall j :: k <= j < ENTRIES ==> NodeEntry(mem, T, n, j)
  }

  ghost predicate SubOk(mem: Mem, T: Tree, n: Node) {
    forall m :: m in T && Under(n, m) ==> NodeOk(mem, T, m, 0)
  }

  /** The loop of freewalk() at node n has freed what hangs from the first k entries. */
  ghost predicate Freeing(ph: Phys, fs: seq<nat>, s: Start, n: Node, k: nat) {
    && n in s.A.T && k <= ENTRIES && TreeShape(s.A.T) && SubOk(s.mem, s.A.T, n) && 0 !in s.mem
    && Pages(s.fs) !! Below(s.A.T, n)
    && FreeOk(ph, fs) && Pages(fs) == Pages(s.fs) + BelowFirst(s.A.T, n, k)
    && OnlyChanges(s.mem, ph.mem, BelowFirst(s.A.T, n, k) + {s.A.T[n]}) && NodeOk(ph.mem, s.A.T, n, k)
  }

  lemma FreeingNone(ph: Phys, fs: seq<nat>, s: Start, n: Node)
    requires s.mem == ph.mem && s.fs == fs && FreeOk(ph, fs) && 0 !in ph.mem && TreeShape(s.A.T) && n in s.A.T
    requires SubOk(ph.mem, s.A.T, n) && Pages(fs) !! Below(s.A.T, n)
    ensures Freeing(ph, fs, s, n, 0)
  {
    assert Under(n, n);
    assert BelowFirst(s.A.T, n, 0) == {};
  }

  /** The next entry is invalid, or points to a table page. */
  lemma FreeingEntry(ph: Phys, fs: seq<nat>, s: Start, n: Node, k: nat)
    requires Freeing(ph, fs, s, n, k) && k < ENTRIES
    ensures n in s.A.T && s.A.T[n] in ph.mem
    ensures var pte := ph.mem[s.A.T[n]][k];
            PteV(pte) ==> PteFlags(pte) == 1 && !n.Low? && Child(n, k) in s.A.T && s.A.T[Child(n, k)] == PtePage(pte)
    ensures !PteV(ph.mem[s.A.T[n]][k]) ==> n.Low? || Child(n, k) !in s.A.T
  {
    assert NodeEntry(ph.mem, s.A.T, n, k);
  }

  /** The subtree of the next child is untouched so far. */
  lemma ChildReady(ph: Phys, fs: seq<nat>, s: Start, n: Node, k: nat)
    requires Freeing(ph, fs, s, n, k) && k < ENTRIES && !n.Low? && Child(n, k) in s.A.T
    ensures FreeOk(ph, fs) && 0 !in ph.mem && TreeShape(s.A.T) && Height(Child(n, k)) < Height(n)
    ensures SubOk(ph.mem, s.A.T, Child(n, k)) && Pages(fs) !! Below(s.A.T, Child(n, k))
  {
    var T, c := s.A.T, Child(n, k);
    forall m | m in T && Under(c, m)
      ensures NodeOk(ph.mem, T, m, 0) && T[m] !in Pages(fs)
    {
      assert Under(n, m) && NodeOk(s.mem, T, m, 0) && T[m] in Below(T, n);
      ChildApart(T, n, k, m);
      assert ph.mem[T[m]] == s.mem[T[m]];
      forall j | 0 <= j < ENTRIES ensures NodeEntry(ph.mem, T, m, j) { assert NodeEntry(s.mem, T, m, j); }
    }
  }

  /** A page below child k is neither the page of n nor below an earlier child. */
  lemma ChildApart(T: Tree, n: Node, k: nat, m: Node)
    requires TreeShape(T) && n in T && !n.Low? && m in T && Under(Child(n, k), m)
    ensures T[m] != T[n] && T[m] !in BelowFirst(T, n, k)
  {
    assert Apart(T, m, n);
    forall x | x in T && Before(n, x, k) ensures T[x] != T[m] { assert Apart(T, x, m); }
  }

  lemma FreeingChild(ph: Phys, fs: seq<nat>, s: Start, n: Node, k: nat, ph': Phys, fs': seq<nat>)
    requires Freeing(ph, fs, s, n, k) && k < ENTRIES && !n.Low? && Child(n, k) in s.A.T
    requires FreeOk(ph', fs') && Pages(fs') == Pages(fs) + Below(s.A.T, Child(n, k))
    requires OnlyChanges(ph.mem, ph'.mem, Below(s.A.T, Child(n, k)))
    ensures n in s.A.T && s.A.T[n] in ph'.mem
    ensures Freeing(Phys(Poke(ph'.mem, s.A.T[n], k, 0), ph'.freelist), fs', s, n, k + 1)
  {
    var T, c := s.A.T, Child(n, k);
    BelowChild(T, n, k);
    assert T[n] !in Below(T, c) by {
      forall m | m in T && Under(c, m) ensures T[m] != T[n] { ChildApart(T, n, k, m); }
    }
    assert T[n] !in Pages(fs') by { OwnPageKept(fs, s, n, k); }
    FreeFrameSet(ph', fs', Poke(ph'.mem, T[n], k, 0), {T[n]});
    var mem' := Poke(ph'.mem, T[n], k, 0);
    forall j | k + 1 <= j < ENTRIES ensures NodeEntry(mem', T, n, j) { assert NodeEntry(ph.mem, T, n, j); }
  }

  /** The table page being scanned is not free. */
  lemma OwnPageKept(fs: seq<nat>, s: Start, n: Node, k: nat)
    requires n in s.A.T && TreeShape(s.A.T) && Pages(s.fs) !! Below(s.A.T, n)
    requires Pages(fs) == Pages(s.fs) + BelowFirst(s.A.T, n, k)
    ensures s.A.T[n] !in Pages(fs)
  {
    var T := s.A.T;
    assert Under(n, n) && T[n] in Below(T, n);
    forall x | x in T && Before(n, x, k) ensures T[x] != T[n] { assert Apart(T, x, n); }
  }

  lemma BelowChild(T: Tree, n: Node, k: nat)
    requires !n.Low?
    ensures BelowFirst(T, n, k + 1) == BelowFirst(T, n, k) + Below(T, Child(n, k))
  {
    forall m | m in T ensures Before(n, m, k + 1) <==> Before(n, m, k) || Under(Child(n, k), m) {}
  }

  lemma FreeingSkip(ph: Phys, fs: seq<nat>, s: Start, n: Node, k: nat)
    requires Freeing(ph, fs, s, n, k) && k < ENTRIES && (n.Low? || Child(n, k) !in s.A.T)
    ensures Freeing(ph, fs, s, n, k + 1)
  {
    var T := s.A.T;
    if n.Low? {
      assert BelowFirst(T, n, k + 1) == BelowFirst(T, n, k);
    } else {
      BelowChild(T, n, k);
      forall m | m in T ensures !Under(Child(n, k), m) {}
      assert Below(T, Child(n, k)) == {};
    }
  }

  lemma FreeingDone(ph: Phys, fs: seq<nat>, s: Start, n: Node)
    requires Freeing(ph, fs, s, n, ENTRIES)
    ensures FreeOk(ph, fs) && n in s.A.T && s.A.T[n] in ph.mem && s.A.T[n] != 0 && s.A.T[n] !in fs
  {
    OwnPageKept(fs, s, n, ENTRIES);
  }

  lemma FreedAll(ph: Phys, fs: seq<nat>, s: Start, n: Node, ph': Phys, fs': seq<nat>)
    requires Freeing(ph, fs, s, n, ENTRIES)
    requires Pages(fs') == {s.A.T[n]} + Pages(fs) && OnlyChanges(ph.mem, ph'.mem, {s.A.T[n]})
    ensures Pages(fs') == Pages(s.fs) + Below(s.A.T, n)
    ensures OnlyChanges(s.mem, ph'.mem, Below(s.A.T, n))
  {
    var T := s.A.T;
    forall m | m in T ensures Under(n, m) <==> m == n || Before(n, m, ENTRIES) { assert InRange(m); }
    assert Below(T, n) == BelowFirst(T, n, ENTRIES) + {T[n]};
  }

  // ----- creating and freeing a page table -----

  lemma BlankSpace(ph0: Phys, ph: Phys, fs: seq<nat>, root: nat)
    requires FreeOk(ph0, fs) && root !in Pages(fs) && root in ph0.mem && 0 !in ph0.mem
    requires ph == Phys(ph0.mem[root := Filled(0)], ph0.freelist)
    ensures Sys(ph, fs, Space(map[Root := root], map[]))
  {
    FreeFrameSet(ph0, fs, ph.mem, {root});
    var T: Tree := map[Root := root];
    assert T[Root] in T.Values;
    forall v: nat | v < NVPN ensures FlatAt(ph.mem, T, map[], v) {}
  }

  /** The user pages below n, and nothing else, are mapped, all by leaves. */
  ghost predicate OnlyUser(F: map<nat, nat>, n: nat) {
    AllLeaves(F, 0, n) && forall w :: w in F ==> Within(0, n, w)
  }

  lemma OnlyUserLeaves(F: map<nat, nat>, n: nat)
    requires OnlyUser(F, n)
    ensures AllLeaves(F, 0, n)
  {
  }

  lemma RootThere(A: Space, root: nat)
    requires RootIs(A, root)
    ensures Root in A.T && A.T[Root] == root
  {
  }

  /** Once nothing is mapped, every entry of the tree points to a table page or is invalid. */
  lemma EmptyTree(ph0: Phys, fs0: seq<nat>, A: Space, n: nat, ph: Phys, fs: seq<nat>)
    requires OnlyUser(A.F, n) && Unmapped(ph0, fs0, A, 0, n, true, ph, fs)
    ensures FreeOk(ph, fs) && 0 !in ph.mem && TreeShape(A.T) && SubOk(ph.mem, A.T, Root)
    ensures Pages(fs) !! Below(A.T, Root)
  {
    var T := A.T;
    assert A.F - Range(0, n) == map[];
    assert Below(T, Root) == T.Values;
    forall m | m in T ensures NodeOk(ph.mem, T, m, 0) {
      forall k: nat | k < ENTRIES ensures NodeEntry(ph.mem, T, m, k) { EmptyEntry(ph.mem, T, m, k); }
    }
  }

  lemma EmptyEntry(mem: Mem, T: Tree, m: Node, k: nat)
    requires Implements(mem, T, map[]) && m in T && k < ENTRIES
    ensures T[m] in mem && NodeEntry(mem, T, m, k)
  {
    match m
    case Root => 
    case Mid(i) =>
    case Low(i, j) =>
      var v := (i * 512 + j) * 512 + k;
      PxOf(i, j, k);
      assert FlatAt(mem, T, map[], v);
  }

  lemma AllFreed(ph0: Phys, fs0: seq<nat>, A: Space, n: nat, ph1: Phys, fs1: seq<nat>, ph: Phys, fs: seq<nat>)
    requires Unmapped(ph0, fs0, A, 0, n, true, ph1, fs1)
    requires Pages(fs) == Pages(fs1) + Below(A.T, Root) && OnlyChanges(ph1.mem, ph.mem, Below(A.T, Root))
    ensures Pages(fs) == Pages(fs0) + A.T.Values + Frames(A.F, 0, n)
    ensures OnlyChanges(ph0.mem, ph.mem, A.T.Values + Frames(A.F, 0, n))
  {
    assert Below(A.T, Root) == A.T.Values;
  }
}
