/**
  The memory side of process creation and destruction (kernel/proc.c): every page that
  allocproc(), proc_pagetable() and fork() take from the free list is either owned by the new
  process or back on the list.
*/
module ProcMem {
  import opened PageTree
  import opened Vm

  const TRAMPOLINE: nat := NVPN - 1     // page numbers
  const TRAPFRAME: nat := NVPN - 2
  const TRAP_WORDS: nat := 36           // sizeof(struct trapframe) / 8
  const A0: nat := 14                   // the word of register a0

  /** The fields of struct proc that hold memory; 0 is the null pointer. */
  class Proc {
    var trapframe: nat
    var pagetable: nat
    var sz: nat

    constructor ()
      ensures trapframe == 0 && pagetable == 0 && sz == 0
    {
      trapframe, pagetable, sz := 0, 0, 0;
    }
  }

  /** Between two states the pages t left the free list, and only pages free at first changed. */
  ghost predicate Took(m0: Mem, f0: seq<nat>, m: Mem, f: seq<nat>, t: set<nat>) {
    Pages(f0) == Pages(f) + t && Pages(f) !! t && OnlyChanges(m0, m, Pages(f0))
  }

  /** An address space of a process: n user pages, the trampoline and the trapframe. */
  ghost predicate UserSpace(F: map<nat, nat>, n: nat, tramp: nat, tf: nat) {
    && n <= TRAPFRAME && AllLeaves(F, 0, n)
    && TRAMPOLINE in F && F[TRAMPOLINE] == MkPte(tramp, 10)
    && TRAPFRAME in F && F[TRAPFRAME] == MkPte(tf, 6)
    && forall w :: w in F ==> Within(0, n, w) || w == TRAMPOLINE || w == TRAPFRAME
  }

  ghost function SpacePages(A: Space, n: nat): set<nat> { A.T.Values + Frames(A.F, 0, n) }

  /** A process that owns its tables, its user frames and its trapframe page. */
  ghost predicate ProcOk(ph: Phys, fs: seq<nat>, A: Space, root: nat, sz: nat, tramp: nat, tf: nat) {
    && Sys(ph, fs, A) && RootIs(A, root) && UserSpace(A.F, RoundUp(sz), tramp, tf)
    && OwnsFrames(ph, fs, A, 0, RoundUp(sz))
    && tf in ph.mem && tf != 0 && tf !in fs && tf !in SpacePages(A, RoundUp(sz))
  }

  // ----- bookkeeping -----

  lemma TookNone(m: Mem, f: seq<nat>)
    ensures Took(m, f, m, f, {})
  {
  }

  lemma TookMore(m0: Mem, f0: seq<nat>, m1: Mem, f1: seq<nat>, m2: Mem, f2: seq<nat>, t: set<nat>, u: set<nat>)
    requires Took(m0, f0, m1, f1, t) && Took(m1, f1, m2, f2, u)
    ensures Took(m0, f0, m2, f2, t + u)
  {
  }

  /** Giving back some of the pages taken. */
  lemma TookLess(m0: Mem, f0: seq<nat>, m1: Mem, f1: seq<nat>, m2: Mem, f2: seq<nat>, t: set<nat>, u: set<nat>)
    requires Took(m0, f0, m1, f1, t + u) && t !! u && Pages(f2) == Pages(f1) + u && OnlyChanges(m1, m2, u)
    ensures Took(m0, f0, m2, f2, t)
  {
  }

  /** Mapping a page may move pages from the free list to the tables, and no others. */
  lemma TookTables(m0: Mem, f0: seq<nat>, ph1: Phys, f1: seq<nat>, A1: Space, ph2: Phys, f2: seq<nat>, A2: Space,
                   more: set<nat>, root: nat)
    requires Took(m0, f0, ph1.mem, f1, A1.T.Values + more) && A1.T.Values !! more && RootIs(A1, root)
    requires Sys(ph2, f2, A2) && Evolved(ph1.mem, f1, A1, ph2.mem, f2, A2)
    ensures Took(m0, f0, ph2.mem, f2, A2.T.Values + more) && A2.T.Values !! more && RootIs(A2, root)
  {
    hide Implements, FreeOk;
  }

  lemma NoUserPages(ph: Phys, fs: seq<nat>, A: Space)
    requires Sys(ph, fs, A) && A.F == map[]
    ensures RoundUp(0) == 0 && OnlyUser(A.F, 0) && OwnsFrames(ph, fs, A, 0, 0) && Frames(A.F, 0, 0) == {}
  {
  }

  // ----- page tables of processes -----

  /** mappages() of a single page. */
  method MapAt(k: Kernel, root: nat, v: nat, p: nat, perm: nat, ghost A: Space, ghost m0: Mem, ghost f0: seq<nat>,
               ghost more: set<nat>)
    returns (ok: bool, ghost A': Space)
    requires Sys(k.ph, k.free, A) && RootIs(A, root) && perm < 1024 && v < NVPN && v !in A.F
    requires Took(m0, f0, k.ph.mem, k.free, A.T.Values + more) && A.T.Values !! more
    modifies k
    ensures Sys(k.ph, k.free, A') && RootIs(A', root)
    ensures A'.F == if ok then A.F[v := MkPte(p, perm)] else A.F
    ensures Took(m0, f0, k.ph.mem, k.free, A'.T.Values + more) && A'.T.Values !! more
    ensures |old(k.free)| <= if ok then |k.free| + 2 else 1
  {
    hide Sys, RootIs, Took, Evolved;
    ghost var ph1, f1 := k.ph, k.free;
    ghost var c;
    ok, A', c := k.MapPages(root, v * 4096, 4096, p * 4096, perm, A);
    TookTables(m0, f0, ph1, f1, A, k.ph, k.free, A', more, root);
  }

  /** uvmfree() of a page table without user pages. */
  method DropTables(k: Kernel, root: nat, ghost A: Space, ghost m0: Mem, ghost f0: seq<nat>)
    requires Sys(k.ph, k.free, A) && RootIs(A, root) && A.F == map[]
    requires Took(m0, f0, k.ph.mem, k.free, A.T.Values)
    modifies k
    ensures FreeOk(k.ph, k.free) && Took(m0, f0, k.ph.mem, k.free, {})
  {
    hide *;
    ghost var m1, f1 := k.ph.mem, k.free;
    NoUserPages(k.ph, k.free, A);
    k.Uvmfree(root, 0, A);
    assert {} + A.T.Values == A.T.Values && A.T.Values + {} == A.T.Values && {} !! A.T.Values;
    TookLess(m0, f0, m1, f1, k.ph.mem, k.free, {}, A.T.Values);
  }

  /**
    proc_pagetable(): a page table with the trampoline and the trapframe mapped. On failure every
    page it took is free again.
  */
  method ProcPagetable(k: Kernel, tramp: nat, tf: nat) returns (root: nat, ghost A: Space)
    requires FreeOk(k.ph, k.free) && 0 !in k.ph.mem
    modifies k
    ensures root == 0 ==> FreeOk(k.ph, k.free) && Took(old(k.ph).mem, old(k.free), k.ph.mem, k.free, {})
    ensures root != 0 ==> Sys(k.ph, k.free, A) && RootIs(A, root) && UserSpace(A.F, 0, tramp, tf)
    ensures root != 0 ==> Took(old(k.ph).mem, old(k.free), k.ph.mem, k.free, A.T.Values)
    ensures |old(k.free)| <= if root != 0 then |k.free| + 5 else 4
  {
    hide *;
    ghost var m0, f0 := k.ph.mem, k.free;
    root, A := k.Uvmcreate();
    if root == 0 { TookNone(m0, f0); return; }
    NewTable(m0, f0, k.ph, k.free, A, root);
    var ok;
    TrapPages();
    ok, A := MapAt(k, root, TRAMPOLINE, tramp, 10, A, m0, f0, {});
    assert A.T.Values + {} == A.T.Values;
    if !ok {
      DropTables(k, root, A, m0, f0);
      return 0, A;
    }
    ok, A := MapAt(k, root, TRAPFRAME, tf, 6, A, m0, f0, {});
    assert A.T.Values + {} == A.T.Values;
    if !ok {
      ghost var ph1, f1, A1 := k.ph, k.free, A;
      OneLeaf(A, TRAMPOLINE, MkPte(tramp, 10));
      A := k.Unmap(root, TRAMPOLINE, 1, false, A);
      TrampolineGone(m0, f0, ph1, f1, A1, k.ph, k.free, root, MkPte(tramp, 10));
      DropTables(k, root, A, m0, f0);
      return 0, A;
    }
    BareUserSpace(A.F, tramp, tf);
  }

  lemma NewTable(m0: Mem, f0: seq<nat>, ph: Phys, f: seq<nat>, A: Space, root: nat)
    requires A == Space(map[Root := root], map[]) && Sys(ph, f, A)
    requires Pages(f0) == Pages(f) + {root} && OnlyChanges(m0, ph.mem, {root})
    ensures RootIs(A, root) && Took(m0, f0, ph.mem, f, A.T.Values + {}) && A.T.Values !! {}
  {
    hide Implements, FreeOk;
    assert A.T[Root] in A.T.Values;
  }

  lemma TrapPages()
    ensures TRAMPOLINE < NVPN && TRAPFRAME < NVPN && TRAMPOLINE != TRAPFRAME && TRAMPOLINE + 1 <= NVPN
  {
  }

  lemma OneLeaf(A: Space, v: nat, pte: nat)
    requires A.F == map[v := pte] && PteFlags(pte) != 1
    ensures AllLeaves(A.F, v, v + 1)
  {
  }

  /** Unmapping the trampoline frees nothing and leaves an empty space. */
  lemma TrampolineGone(m0: Mem, f0: seq<nat>, ph1: Phys, f1: seq<nat>, A: Space, ph: Phys, f: seq<nat>, root: nat,
                       pte: nat)
    requires A.F == map[TRAMPOLINE := pte] && RootIs(A, root)
    requires Took(m0, f0, ph1.mem, f1, A.T.Values) && Unmapped(ph1, f1, A, TRAMPOLINE, TRAMPOLINE + 1, false, ph, f)
    ensures A.F - Range(TRAMPOLINE, TRAMPOLINE + 1) == map[]
    ensures var B := Space(A.T, A.F - Range(TRAMPOLINE, TRAMPOLINE + 1));
            Sys(ph, f, B) && RootIs(B, root) && Took(m0, f0, ph.mem, f, B.T.Values)
  {
    hide Implements, FreeOk;
    assert Within(TRAMPOLINE, TRAMPOLINE + 1, TRAMPOLINE);
  }

  lemma BareUserSpace(F: map<nat, nat>, tramp: nat, tf: nat)
    requires F == map[TRAMPOLINE := MkPte(tramp, 10)][TRAPFRAME := MkPte(tf, 6)]
    ensures UserSpace(F, 0, tramp, tf)
  {
  }

  /** proc_freepagetable(): give back the user frames and the tables, but not the trapframe. */
  method ProcFreePagetable(k: Kernel, root: nat, sz: nat, ghost A: Space, ghost tramp: nat, ghost tf: nat)
    requires Sys(k.ph, k.free, A) && RootIs(A, root) && UserSpace(A.F, RoundUp(sz), tramp, tf)
    requires OwnsFrames(k.ph, k.free, A, 0, RoundUp(sz))
    modifies k
    ensures FreeOk(k.ph, k.free) && Pages(k.free) == Pages(old(k.free)) + SpacePages(A, RoundUp(sz))
    ensures OnlyChanges(old(k.ph).mem, k.ph.mem, SpacePages(A, RoundUp(sz)))
  {
    hide *;
    ghost var n := RoundUp(sz);
    TrapPages();
    TrapLeaves(A, n, tramp, tf);
    ghost var ph0, f0 := k.ph, k.free;
    ghost var A1 := k.Unmap(root, TRAMPOLINE, 1, false, A);
    Stripped(ph0, f0, A, TRAMPOLINE, n, k.ph, k.free, root);
    ghost var ph1, f1 := k.ph, k.free;
    ghost var A2 := k.Unmap(root, TRAPFRAME, 1, false, A1);
    Stripped(ph1, f1, A1, TRAPFRAME, n, k.ph, k.free, root);
    OnlyUserLeft(A, n, tramp, tf);
    ghost var ph2 := k.ph;
    k.Uvmfree(root, sz, A2);
    SpaceFreed(ph0.mem, ph1.mem, ph2.mem, k.ph.mem, A, n, Pages(f0));
  }

  lemma TrapLeaves(A: Space, n: nat, tramp: nat, tf: nat)
    requires UserSpace(A.F, n, tramp, tf)
    ensures n <= TRAPFRAME && n <= TRAMPOLINE && n <= NVPN && AllLeaves(A.F, TRAMPOLINE, TRAMPOLINE + 1)
    ensures AllLeaves(A.F - Range(TRAMPOLINE, TRAMPOLINE + 1), TRAPFRAME, TRAPFRAME + 1)
  {
  }

  /** Removing a mapping above the user pages keeps these and frees nothing. */
  lemma Stripped(ph0: Phys, f0: seq<nat>, A: Space, v: nat, n: nat, ph: Phys, f: seq<nat>, root: nat)
    requires Unmapped(ph0, f0, A, v, v + 1, false, ph, f) && n <= v && RootIs(A, root) && OwnsFrames(ph0, f0, A, 0, n)
    ensures Pages(f) == Pages(f0) && OnlyChanges(ph0.mem, ph.mem, A.T.Values)
    ensures var B := Space(A.T, A.F - Range(v, v + 1));
            && Sys(ph, f, B) && RootIs(B, root) && OwnsFrames(ph, f, B, 0, n)
            && Frames(B.F, 0, n) == Frames(A.F, 0, n)
  {
    hide Sys;
    assert forall p :: p in f ==> p in Pages(f);
    assert forall p :: p in Pages(f0) ==> p in f0;
    var B := Space(A.T, A.F - Range(v, v + 1));
    forall w, x | Within(0, n, w) && Within(0, n, x) ensures TwoFrames(B.F, w, x) { assert TwoFrames(A.F, w, x); }
    forall w | Within(0, n, w) ensures w in B.F <==> w in A.F {}
  }

  lemma OnlyUserLeft(A: Space, n: nat, tramp: nat, tf: nat)
    requires UserSpace(A.F, n, tramp, tf)
    ensures OnlyUser(A.F - Range(TRAMPOLINE, TRAMPOLINE + 1) - Range(TRAPFRAME, TRAPFRAME + 1), n)
  {
    forall w | Within(0, n, w) ensures !Within(TRAMPOLINE, TRAMPOLINE + 1, w) && !Within(TRAPFRAME, TRAPFRAME + 1, w) {}
    assert Within(TRAMPOLINE, TRAMPOLINE + 1, TRAMPOLINE) && Within(TRAPFRAME, TRAPFRAME + 1, TRAPFRAME);
  }

  lemma SpaceFreed(m0: Mem, m1: Mem, m2: Mem, m3: Mem, A: Space, n: nat, f0: set<nat>)
    requires OnlyChanges(m0, m1, A.T.Values) && OnlyChanges(m1, m2, A.T.Values)
    requires OnlyChanges(m2, m3, A.T.Values + Frames(A.F, 0, n))
    ensures OnlyChanges(m0, m3, SpacePages(A, n))
    ensures f0 + A.T.Values + Frames(A.F, 0, n) == f0 + SpacePages(A, n)
  {
  }

  // ----- processes -----

  /** The pages a process slot holds. */
  ghost function Held(A: Space, root: nat, sz: nat, tf: nat): set<nat> {
    (if tf != 0 then {tf} else {}) + (if root != 0 then SpacePages(A, RoundUp(sz)) else {})
  }

  /** A slot that can be freed: a whole process, or one whose creation stopped half-way. */
  ghost predicate Freeable(ph: Phys, fs: seq<nat>, A: Space, root: nat, sz: nat, tramp: nat, tf: nat) {
    && FreeOk(ph, fs) && 0 !in ph.mem
    && (root != 0 ==> ProcOk(ph, fs, A, root, sz, tramp, tf))
    && (root == 0 && tf != 0 ==> tf in ph.mem && tf !in fs)
  }

  /** freeproc(): give back every page the process holds. */
  method FreeProc(k: Kernel, p: Proc, ghost A: Space, ghost tramp: nat)
    requires Freeable(k.ph, k.free, A, p.pagetable, p.sz, tramp, p.trapframe)
    modifies k, p
    ensures p.trapframe == 0 && p.pagetable == 0 && p.sz == 0
    ensures FreeOk(k.ph, k.free) && Pages(k.free) == Pages(old(k.free)) + old(Held(A, p.pagetable, p.sz, p.trapframe))
    ensures OnlyChanges(old(k.ph).mem, k.ph.mem, old(Held(A, p.pagetable, p.sz, p.trapframe)))
  {
    hide *;
    ghost var ph0, f0, root, sz, tf := k.ph, k.free, p.pagetable, p.sz, p.trapframe;
    CanFree(k.ph, k.free, A, root, sz, tramp, tf);
    if p.trapframe != 0 {
      k.Kfree(p.trapframe);
    } else {
      NothingChanged(k.ph.mem);
    }
    p.trapframe := 0;
    ghost var ph1, f1 := k.ph, k.free;
    if p.pagetable != 0 {
      TrapframeFreed(ph0, f0, A, root, sz, tramp, tf, k.ph, k.free);
      ProcFreePagetable(k, p.pagetable, p.sz, A, tramp, tf);
    } else {
      NothingChanged(k.ph.mem);
    }
    HeldFreed(ph0.mem, f0, ph1.mem, f1, k.ph.mem, k.free, A, root, sz, tf);
    p.pagetable := 0;
    p.sz := 0;
  }

  lemma CanFree(ph: Phys, fs: seq<nat>, A: Space, root: nat, sz: nat, tramp: nat, tf: nat)
    requires Freeable(ph, fs, A, root, sz, tramp, tf)
    ensures FreeOk(ph, fs) && (tf != 0 ==> tf in ph.mem && tf !in fs)
    ensures root != 0 ==> tf != 0 && ProcOk(ph, fs, A, root, sz, tramp, tf)
  {
    hide FreeOk, Sys, OwnsFrames, UserSpace;
  }

  lemma NothingChanged(m: Mem)
    ensures OnlyChanges(m, m, {})
  {
  }

  /** Freeing the trapframe page leaves the rest of the process as it was. */
  lemma TrapframeFreed(ph0: Phys, f0: seq<nat>, A: Space, root: nat, sz: nat, tramp: nat, tf: nat, ph: Phys, f: seq<nat>)
    requires ProcOk(ph0, f0, A, root, sz, tramp, tf)
    requires FreeOk(ph, f) && f == [tf] + f0 && Pages(f) == {tf} + Pages(f0) && OnlyChanges(ph0.mem, ph.mem, {tf})
    ensures Sys(ph, f, A) && RootIs(A, root) && UserSpace(A.F, RoundUp(sz), tramp, tf)
    ensures OwnsFrames(ph, f, A, 0, RoundUp(sz))
  {
    hide FreeOk, UserSpace, Implements, RoundUp;
    KfreeSys(ph0, f0, ph, f, A, tf);
    forall w | Within(0, RoundUp(sz), w) && w in A.F
      ensures PtePage(A.F[w]) in ph.mem && PtePage(A.F[w]) !in f && PtePage(A.F[w]) !in A.T.Values
    {
      assert PtePage(A.F[w]) in Frames(A.F, 0, RoundUp(sz));
    }
  }

  lemma HeldFreed(m0: Mem, f0: seq<nat>, m1: Mem, f1: seq<nat>, m2: Mem, f2: seq<nat>, A: Space, root: nat, sz: nat,
                  tf: nat)
    requires tf != 0 ==> Pages(f1) == {tf} + Pages(f0) && OnlyChanges(m0, m1, {tf})
    requires tf == 0 ==> f1 == f0 && OnlyChanges(m0, m1, {})
    requires root != 0 ==> Pages(f2) == Pages(f1) + SpacePages(A, RoundUp(sz))
    requires root != 0 ==> OnlyChanges(m1, m2, SpacePages(A, RoundUp(sz)))
    requires root == 0 ==> f2 == f1 && OnlyChanges(m1, m2, {})
    ensures Pages(f2) == Pages(f0) + Held(A, root, sz, tf) && OnlyChanges(m0, m2, Held(A, root, sz, tf))
  {
    hide SpacePages, RoundUp, Pages;
  }

  /**
    The memory side of allocproc(), for an unused slot: a trapframe and an empty page table, or
    nothing.
  */
  method AllocProc(k: Kernel, np: Proc, tramp: nat) returns (ok: bool, ghost A: Space)
    requires FreeOk(k.ph, k.free) && 0 !in k.ph.mem && np.trapframe == 0 && np.pagetable == 0 && np.sz == 0
    modifies k, np
    ensures np.sz == 0
    ensures !ok ==> np.trapframe == 0 && np.pagetable == 0
    ensures !ok ==> FreeOk(k.ph, k.free) && Took(old(k.ph).mem, old(k.free), k.ph.mem, k.free, {})
    ensures ok ==> np.pagetable != 0 && ProcOk(k.ph, k.free, A, np.pagetable, 0, tramp, np.trapframe)
    ensures ok ==> Took(old(k.ph).mem, old(k.free), k.ph.mem, k.free, Held(A, np.pagetable, 0, np.trapframe))
    ensures |old(k.free)| <= if ok then |k.free| + 6 else 5
  {
    hide *;
    ghost var ph0, f0 := k.ph, k.free;
    A := Space(map[], map[]);
    np.trapframe := k.Kalloc();
    if np.trapframe == 0 {
      NothingHeld(k.ph, k.free, A, tramp);
      FreeProc(k, np, A, tramp);
      NoneTaken(ph0, f0, k.ph, k.free, A);
      return false, A;
    }
    TrapframeTaken(ph0, f0, k.ph, k.free, np.trapframe);
    ghost var m1, f1 := k.ph.mem, k.free;
    np.pagetable, A := ProcPagetable(k, tramp, np.trapframe);
    if np.pagetable == 0 {
      OnlyTrapframe(ph0, f0, m1, f1, k.ph, k.free, A, tramp, np.trapframe);
      ghost var m2, f2 := k.ph.mem, k.free;
      FreeProc(k, np, A, tramp);
      TookLess(ph0.mem, f0, m2, f2, k.ph.mem, k.free, {}, Held(A, 0, 0, old(k.free)[0]));
      return false, A;
    }
    Allocated(ph0, f0, m1, f1, k.ph, k.free, A, np.pagetable, tramp, np.trapframe);
    ok := true;
  }

  lemma NothingHeld(ph: Phys, fs: seq<nat>, A: Space, tramp: nat)
    requires FreeOk(ph, fs) && 0 !in ph.mem
    ensures Freeable(ph, fs, A, 0, 0, tramp, 0)
  {
    hide FreeOk;
  }

  lemma NoneTaken(ph0: Phys, f0: seq<nat>, ph: Phys, f: seq<nat>, A: Space)
    requires Pages(f) == Pages(f0) + Held(A, 0, 0, 0) && OnlyChanges(ph0.mem, ph.mem, Held(A, 0, 0, 0))
    ensures Took(ph0.mem, f0, ph.mem, f, {})
  {
  }

  lemma TrapframeTaken(ph0: Phys, f0: seq<nat>, ph: Phys, f: seq<nat>, tf: nat)
    requires 0 !in ph0.mem && tf in ph0.mem && Pages(f0) == {tf} + Pages(f) && tf !in Pages(f)
    requires tf in ph.mem && ph.mem == ph0.mem[tf := ph.mem[tf]]
    ensures Took(ph0.mem, f0, ph.mem, f, {tf}) && 0 !in ph.mem
  {
  }

  lemma OnlyTrapframe(ph0: Phys, f0: seq<nat>, m1: Mem, f1: seq<nat>, ph: Phys, f: seq<nat>, A: Space, tramp: nat, tf: nat)
    requires 0 !in ph0.mem && tf in ph0.mem && tf != 0 && FreeOk(ph, f)
    requires Took(ph0.mem, f0, m1, f1, {tf}) && Took(m1, f1, ph.mem, f, {})
    ensures Freeable(ph, f, A, 0, 0, tramp, tf)
    ensures Took(ph0.mem, f0, ph.mem, f, {} + Held(A, 0, 0, tf))
  {
    hide FreeOk;
    TookMore(ph0.mem, f0, m1, f1, ph.mem, f, {tf}, {});
    assert tf in {tf};
  }

  lemma Allocated(ph0: Phys, f0: seq<nat>, m1: Mem, f1: seq<nat>, ph: Phys, f: seq<nat>, A: Space, root: nat,
                  tramp: nat, tf: nat)
    requires tf in ph0.mem && tf != 0 && root != 0
    requires Took(ph0.mem, f0, m1, f1, {tf}) && Took(m1, f1, ph.mem, f, A.T.Values)
    requires Sys(ph, f, A) && RootIs(A, root) && UserSpace(A.F, 0, tramp, tf)
    ensures ProcOk(ph, f, A, root, 0, tramp, tf) && Took(ph0.mem, f0, ph.mem, f, Held(A, root, 0, tf))
  {
    hide Sys, UserSpace;
    assert tf in {tf};
    assert RoundUp(0) == 0 && Frames(A.F, 0, 0) == {};
    TookMore(ph0.mem, f0, m1, f1, ph.mem, f, {tf}, A.T.Values);
  }

  // ----- fork -----

  /** The trapframe fork() gives the child: the parent's registers with a0 cleared. */
  function ChildTrapframe(parent: Page, child: Page): (p: Page)
    ensures p[A0] == 0 && p[TRAP_WORDS..] == child[TRAP_WORDS..]
    ensures forall i :: 0 <= i < TRAP_WORDS && i != A0 ==> p[i] == parent[i]
  {
    parent[..TRAP_WORDS][A0 := 0] + child[TRAP_WORDS..]
  }

  /**
    The memory side of fork(), into an unused slot np. The parent keeps its memory. If fork fails
    there were too few free pages, and their set is as before; if it succeeds the child holds exactly the pages that left
    the free list, and its user memory is a copy of the parent's, with the same permissions.
  */
  method Fork(k: Kernel, p: Proc, np: Proc, tramp: nat, ghost P: Space) returns (ok: bool, ghost C: Space)
    requires p != np && np.trapframe == 0 && np.pagetable == 0 && np.sz == 0
    requires ProcOk(k.ph, k.free, P, p.pagetable, p.sz, tramp, p.trapframe)
    modifies k, np
    ensures ProcOk(k.ph, k.free, P, p.pagetable, p.sz, tramp, p.trapframe)
    ensures OnlyChanges(old(k.ph).mem, k.ph.mem, Pages(old(k.free)))
    ensures !ok ==> np.trapframe == 0 && np.pagetable == 0 && np.sz == 0
    ensures !ok ==> Pages(k.free) == Pages(old(k.free)) && |old(k.free)| < 3 * RoundUp(p.sz) + 6
    ensures ok ==> np.pagetable != 0 && np.sz == p.sz && ProcOk(k.ph, k.free, C, np.pagetable, np.sz, tramp, np.trapframe)
    ensures ok ==> Took(old(k.ph).mem, old(k.free), k.ph.mem, k.free, Held(C, np.pagetable, np.sz, np.trapframe))
    ensures ok ==> Copied(k.ph.mem, C.F, old(k.ph).mem, P.F, RoundUp(p.sz))
    ensures ok ==> ChildRuns(old(k.ph).mem, k.ph.mem, p.trapframe, np.trapframe)
  {
    hide *;
    ghost var ph0, f0 := k.ph, k.free;
    ParentReady(k.ph, k.free, P, p.pagetable, p.sz, tramp, p.trapframe);
    ok, C := AllocProc(k, np, tramp);
    if !ok {
      ParentKept(ph0, f0, P, p.pagetable, p.sz, tramp, p.trapframe, k.ph, k.free, {});
      return;
    }
    ghost var ph1, f1, C0, root, tf := k.ph, k.free, C, np.pagetable, np.trapframe;
    CopyReady(ph0, f0, P, p.pagetable, p.sz, tramp, p.trapframe, k.ph, k.free, C, root, tf);
    ok, C := k.Uvmcopy(p.pagetable, np.pagetable, p.sz, P, C);
    if !ok {
      PageRounds(0);
      ChildMade(ph0.mem, f0, ph1, f1, C0, root, 0, tramp, tf, k.ph, k.free, C);
      ghost var m2, f2 := k.ph.mem, k.free;
      FreeProc(k, np, C, tramp);
      TookLess(ph0.mem, f0, m2, f2, k.ph.mem, k.free, {}, Held(C, root, 0, tf));
      ParentKept(ph0, f0, P, p.pagetable, p.sz, tramp, p.trapframe, k.ph, k.free, {});
      return;
    }
    np.sz := p.sz;
    ghost var ph3 := k.ph;
    ChildMade(ph0.mem, f0, ph1, f1, C0, root, p.sz, tramp, tf, k.ph, k.free, C);
    CopiedThrough(ph0, f0, P, p.pagetable, p.sz, tramp, p.trapframe, ph1.mem, f1, Held(C0, root, 0, tf), k.ph.mem, C.F);
    ParentTrapframe(ph0, f0, P, p.pagetable, p.sz, tramp, p.trapframe, k.ph.mem, k.free, Held(C, root, p.sz, tf));
    k.ph := k.ph.(mem := k.ph.mem[np.trapframe := ChildTrapframe(k.ph.mem[p.trapframe], k.ph.mem[np.trapframe])]);
    TrapframeWritten(ph0.mem, f0, ph3, k.free, C, root, p.sz, tramp, tf, k.ph, P.F);
    ParentKept(ph0, f0, P, p.pagetable, p.sz, tramp, p.trapframe, k.ph, k.free, Held(C, root, p.sz, tf));
    Registers(ph0.mem, ph3.mem, k.ph.mem, p.trapframe, tf);
  }

  /** The parent's user pages hold the same when they are copied as at the start of fork(). */
  lemma CopiedThrough(ph0: Phys, f0: seq<nat>, P: Space, root: nat, sz: nat, tramp: nat, tf: nat, m1: Mem, f1: seq<nat>,
                      t: set<nat>, m: Mem, F: map<nat, nat>)
    requires ProcOk(ph0, f0, P, root, sz, tramp, tf) && Took(ph0.mem, f0, m1, f1, t)
    requires Copied(m, F, m1, P.F, RoundUp(sz))
    ensures Copied(m, F, ph0.mem, P.F, RoundUp(sz))
  {
    hide Implements, FreeOk, RoundUp, UserSpace;
    ParentBeside(ph0, f0, P, root, sz, tramp, tf);
    BesideKept(ph0.mem, m1, P, Pages(f0), RoundUp(sz));
  }

  /** The child resumes with the parent's registers, except that fork returns 0 in it. */
  ghost predicate ChildRuns(m0: Mem, m: Mem, tf: nat, ctf: nat) {
    tf in m0 && ctf in m && exists junk: Page :: m[ctf] == ChildTrapframe(m0[tf], junk)
  }

  lemma ParentReady(ph: Phys, fs: seq<nat>, P: Space, root: nat, sz: nat, tramp: nat, tf: nat)
    requires ProcOk(ph, fs, P, root, sz, tramp, tf)
    ensures FreeOk(ph, fs) && 0 !in ph.mem && RootIs(P, root) && RoundUp(sz) <= TRAPFRAME && TRAPFRAME < NVPN
  {
    hide FreeOk, Implements, OwnsFrames;
  }

  /** Taking free pages does not touch a process. */
  lemma ParentKept(ph0: Phys, f0: seq<nat>, P: Space, root: nat, sz: nat, tramp: nat, tf: nat, ph: Phys, f: seq<nat>,
                   t: set<nat>)
    requires ProcOk(ph0, f0, P, root, sz, tramp, tf) && Took(ph0.mem, f0, ph.mem, f, t) && FreeOk(ph, f)
    ensures ProcOk(ph, f, P, root, sz, tramp, tf)
    ensures OnlyChanges(ph0.mem, ph.mem, Pages(f0)) && (t == {} ==> Pages(f) == Pages(f0))
  {
    hide FreeOk, Implements, UserSpace, RoundUp, SpacePages;
    forall m | m in P.T ensures P.T[m] in ph.mem && ph.mem[P.T[m]] == ph0.mem[P.T[m]] {
      assert P.T[m] in P.T.Values;
      TableThere(ph0, f0, P, m);
    }
    TreeFrame(ph0.mem, ph.mem, P.T, P.F);
    assert forall q :: q in f ==> q in Pages(f);
    assert forall q :: q in Pages(f0) ==> q in f0;
  }

  /** The parent's memory is beside the pages the child can use. */
  lemma CopyReady(ph0: Phys, f0: seq<nat>, P: Space, proot: nat, sz: nat, tramp: nat, ptf: nat,
                  ph: Phys, f: seq<nat>, C: Space, root: nat, tf: nat)
    requires ProcOk(ph0, f0, P, proot, sz, tramp, ptf) && ProcOk(ph, f, C, root, 0, tramp, tf) && root != 0
    requires Took(ph0.mem, f0, ph.mem, f, Held(C, root, 0, tf))
    ensures Sys(ph, f, C) && RootIs(C, root) && Beside(ph.mem, P, Pages(f) + C.T.Values, RoundUp(sz))
    ensures forall w :: 0 <= w < RoundUp(sz) ==> w !in C.F
  {
    hide FreeOk, Implements, RoundUp;
    var n := RoundUp(sz);
    assert RoundUp(0) == 0 by { PageRounds(0); }
    assert Beside(ph0.mem, P, Pages(f0), n) by { ParentBeside(ph0, f0, P, proot, sz, tramp, ptf); }
    BesideKept(ph0.mem, ph.mem, P, Pages(f0), n);
    forall w | 0 <= w < n ensures w !in C.F {}
  }

  lemma ParentBeside(ph: Phys, fs: seq<nat>, P: Space, root: nat, sz: nat, tramp: nat, tf: nat)
    requires ProcOk(ph, fs, P, root, sz, tramp, tf)
    ensures Beside(ph.mem, P, Pages(fs), RoundUp(sz))
  {
    hide FreeOk, Implements, RoundUp;
  }

  /** What uvmcopy() leaves, complete or not, is a process again, and every page is accounted for. */
  lemma ChildMade(m0: Mem, f0: seq<nat>, ph1: Phys, f1: seq<nat>, C0: Space, root: nat, sz: nat, tramp: nat, tf: nat,
                  ph: Phys, f: seq<nat>, C: Space)
    requires ProcOk(ph1, f1, C0, root, 0, tramp, tf) && Took(m0, f0, ph1.mem, f1, Held(C0, root, 0, tf)) && root != 0
    requires Run(ph, f, C, Start(ph1.mem, f1, C0), 0, RoundUp(sz), {}) && RootIs(C, root) && RoundUp(sz) <= TRAPFRAME
    ensures ProcOk(ph, f, C, root, sz, tramp, tf)
    ensures Freeable(ph, f, C, root, sz, tramp, tf) && tf in ph.mem
    ensures Took(m0, f0, ph.mem, f, Held(C, root, sz, tf)) && {} + Held(C, root, sz, tf) == Held(C, root, sz, tf)
  {
    hide *;
    var s, n := Start(ph1.mem, f1, C0), RoundUp(sz);
    RunOwns(ph, f, C, s, 0, n);
    RunChanges(ph, f, C, s, 0, n);
    assert UserSpace(C.F, n, tramp, tf) by { UserPagesAdded(ph, f, C, s, n, ph1, root, tramp, tf); }
    RunTook(m0, f0, ph1, f1, C0, root, sz, tramp, tf, ph, f, C);
    MakeProc(ph, f, C, root, sz, tramp, tf);
  }

  lemma MakeProc(ph: Phys, f: seq<nat>, C: Space, root: nat, sz: nat, tramp: nat, tf: nat)
    requires Sys(ph, f, C) && RootIs(C, root) && UserSpace(C.F, RoundUp(sz), tramp, tf) && root != 0
    requires OwnsFrames(ph, f, C, 0, RoundUp(sz))
    requires tf in ph.mem && tf != 0 && tf !in f && tf !in SpacePages(C, RoundUp(sz))
    ensures ProcOk(ph, f, C, root, sz, tramp, tf) && Freeable(ph, f, C, root, sz, tramp, tf)
  {
    hide Implements, FreeOk, UserSpace, OwnsFrames, SpacePages, RoundUp;
  }

  lemma UserPagesAdded(ph: Phys, f: seq<nat>, C: Space, s: Start, n: nat, ph1: Phys, root: nat, tramp: nat, tf: nat)
    requires ProcOk(ph1, s.fs, s.A, root, 0, tramp, tf) && Run(ph, f, C, s, 0, n, {}) && n <= TRAPFRAME
    ensures UserSpace(C.F, n, tramp, tf)
  {
    hide Sys, OwnsFrames, Account, OnlyChanges, Injective, SpacePages;
    assert RoundUp(0) == 0;
    assert !Within(0, n, TRAMPOLINE) && !Within(0, n, TRAPFRAME);
    forall w | w in C.F ensures Within(0, n, w) || w == TRAMPOLINE || w == TRAPFRAME {
      assert Within(0, n, w) || w in s.A.F;
    }
  }

  lemma RunTook(m0: Mem, f0: seq<nat>, ph1: Phys, f1: seq<nat>, C0: Space, root: nat, sz: nat, tramp: nat, tf: nat,
                ph: Phys, f: seq<nat>, C: Space)
    requires ProcOk(ph1, f1, C0, root, 0, tramp, tf) && Took(m0, f0, ph1.mem, f1, Held(C0, root, 0, tf)) && root != 0
    requires Run(ph, f, C, Start(ph1.mem, f1, C0), 0, RoundUp(sz), {})
    ensures tf in ph.mem && tf != 0 && tf !in f && tf !in SpacePages(C, RoundUp(sz))
    ensures Took(m0, f0, ph.mem, f, Held(C, root, sz, tf))
    ensures {} + Held(C, root, sz, tf) == Held(C, root, sz, tf)
  {
    hide Sys, OwnsFrames, UserSpace, Injective, Added, Extends, Frames;
    assert RoundUp(0) == 0 && Frames(C0.F, 0, 0) == {} by { NoFrames(C0.F); }
    var s := Start(ph1.mem, f1, C0);
    assert tf !in Total(s);
  }

  lemma NoFrames(F: map<nat, nat>)
    ensures RoundUp(0) == 0 && Frames(F, 0, 0) == {}
  {
  }

  /** Storing the child's registers touches its trapframe page only. */
  lemma TrapframeWritten(m0: Mem, f0: seq<nat>, ph: Phys, f: seq<nat>, C: Space, root: nat, sz: nat, tramp: nat, tf: nat,
                         ph': Phys, G: map<nat, nat>)
    requires ProcOk(ph, f, C, root, sz, tramp, tf) && Took(m0, f0, ph.mem, f, Held(C, root, sz, tf))
    requires tf in ph'.mem && ph' == Phys(ph.mem[tf := ph'.mem[tf]], ph.freelist)
    requires Copied(ph.mem, C.F, m0, G, RoundUp(sz))
    ensures ProcOk(ph', f, C, root, sz, tramp, tf) && Took(m0, f0, ph'.mem, f, Held(C, root, sz, tf))
    ensures Copied(ph'.mem, C.F, m0, G, RoundUp(sz)) && FreeOk(ph', f)
  {
    hide *;
    TrapframeApart(ph, f, C, root, sz, tramp, tf, ph'.mem);
    StillProc(ph, f, C, root, sz, tramp, tf, ph');
    StillCopied(ph.mem, C, RoundUp(sz), tf, ph'.mem, m0, G);
    StillTook(m0, f0, ph.mem, f, C, root, sz, tf, ph'.mem);
  }

  lemma TrapframeApart(ph: Phys, f: seq<nat>, C: Space, root: nat, sz: nat, tramp: nat, tf: nat, m: Mem)
    requires ProcOk(ph, f, C, root, sz, tramp, tf) && tf in m && m == ph.mem[tf := m[tf]]
    ensures tf in ph.mem && tf != 0 && tf !in Frames(C.F, 0, RoundUp(sz)) && OnlyChanges(ph.mem, m, {tf})
  {
    hide Sys, OwnsFrames, UserSpace, Frames, RoundUp;
  }

  lemma StillProc(ph: Phys, f: seq<nat>, C: Space, root: nat, sz: nat, tramp: nat, tf: nat, ph': Phys)
    requires ProcOk(ph, f, C, root, sz, tramp, tf) && OnlyChanges(ph.mem, ph'.mem, {tf}) && ph'.freelist == ph.freelist
    ensures ProcOk(ph', f, C, root, sz, tramp, tf) && FreeOk(ph', f)
  {
    hide FreeOk, Implements, UserSpace, RoundUp, Frames;
    assert tf !in Pages(f);
    FreeFrameSet(ph, f, ph'.mem, {tf});
    forall m | m in C.T ensures C.T[m] in ph'.mem && ph'.mem[C.T[m]] == ph.mem[C.T[m]] {
      assert C.T[m] in C.T.Values;
      TableThere(ph, f, C, m);
    }
    TreeFrame(ph.mem, ph'.mem, C.T, C.F);
  }

  lemma StillCopied(m: Mem, C: Space, n: nat, tf: nat, m': Mem, m0: Mem, G: map<nat, nat>)
    requires Copied(m, C.F, m0, G, n) && tf !in Frames(C.F, 0, n) && OnlyChanges(m, m', {tf})
    ensures Copied(m', C.F, m0, G, n)
  {
  }

  lemma StillTook(m0: Mem, f0: seq<nat>, m: Mem, f: seq<nat>, C: Space, root: nat, sz: nat, tf: nat, m': Mem)
    requires Took(m0, f0, m, f, Held(C, root, sz, tf)) && tf != 0 && OnlyChanges(m, m', {tf})
    ensures Took(m0, f0, m', f, Held(C, root, sz, tf))
  {
    hide SpacePages, Pages;
    assert tf in Held(C, root, sz, tf);
  }

  /** The parent's trapframe is as it was at the start. */
  lemma ParentTrapframe(ph0: Phys, f0: seq<nat>, P: Space, root: nat, sz: nat, tramp: nat, tf: nat, m: Mem, f: seq<nat>,
                        t: set<nat>)
    requires ProcOk(ph0, f0, P, root, sz, tramp, tf) && Took(ph0.mem, f0, m, f, t)
    ensures tf in m && tf in ph0.mem && m[tf] == ph0.mem[tf]
  {
    hide Sys, OwnsFrames, UserSpace, SpacePages;
  }

  lemma Registers(m0: Mem, m: Mem, m': Mem, tf: nat, ctf: nat)
    requires tf in m0 && tf in m && ctf in m && m[tf] == m0[tf]
    requires m' == m[ctf := ChildTrapframe(m[tf], m[ctf])]
    ensures ChildRuns(m0, m', tf, ctf)
  {
  }
}
