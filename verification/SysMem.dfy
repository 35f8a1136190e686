/**
  The memory of the whole system: the page allocator from freerange() (kernel/kalloc.c) on, and a
  table of processes that are created, forked, grown, shrunk and freed (kernel/proc.c). Every page is
  free or has exactly one use in exactly one process, in every state of every run.
*/
module SysMem {
  import opened PageTree
  import opened Vm
  import opened ProcMem

  // ----- the state -----

  /** A slot of the process table; an unused one holds no memory. */
  datatype Slot = Slot(A: Space, root: nat, sz: nat, tf: nat)

  /** Physical memory, the free list and the process table. */
  datatype State = State(ph: Phys, fs: seq<nat>, slots: seq<Slot>)

  ghost function Use(x: Slot): set<nat> { Held(x.A, x.root, x.sz, x.tf) }

  predicate Unused(x: Slot) { x.root == 0 && x.tf == 0 && x.sz == 0 }

  /** A slot is unused or a process that owns its tables, frames and trapframe; sizes fit in 32 bits. */
  ghost predicate SlotOk(ph: Phys, fs: seq<nat>, x: Slot, tramp: nat) {
    Unused(x) || (x.root != 0 && x.sz < 0x1_0000_0000 && ProcOk(ph, fs, x.A, x.root, x.sz, tramp, x.tf))
  }

  /** Different slots share no page. */
  ghost predicate Apart(slots: seq<Slot>, i: nat, j: nat) {
    i < |slots| && j < |slots| && i != j ==> Use(slots[i]) !! Use(slots[j])
  }

  ghost predicate InUse(slots: seq<Slot>, x: nat) { exists i: nat :: i < |slots| && x in Use(slots[i]) }

  /** The pages all are the free ones and those of the processes, each once. */
  ghost predicate Accounted(all: set<nat>, fs: seq<nat>, slots: seq<Slot>) {
    && Pages(fs) <= all
    && (forall i: nat :: i < |slots| ==> Use(slots[i]) <= all && Use(slots[i]) !! Pages(fs))
    && (forall i: nat, j: nat {:trigger Apart(slots, i, j)} :: Apart(slots, i, j))
    && (forall x :: x in all ==> x in Pages(fs) || InUse(slots, x))
  }

  ghost predicate SysOk(all: set<nat>, tramp: nat, s: State) {
    && FreeOk(s.ph, s.fs) && 0 !in s.ph.mem && all <= s.ph.mem.Keys
    && (forall i: nat :: i < |s.slots| ==> SlotOk(s.ph, s.fs, s.slots[i], tramp))
    && Accounted(all, s.fs, s.slots)
  }

  // ----- one slot changes -----

  /** Slot j trades pages with the free list; only these pages change. */
  ghost predicate Exchange(tramp: nat, s: State, j: nat, t: State) {
    && j < |s.slots| && |t.slots| == |s.slots| && t.slots == s.slots[j := t.slots[j]]
    && FreeOk(t.ph, t.fs) && SlotOk(t.ph, t.fs, t.slots[j], tramp)
    && OnlyChanges(s.ph.mem, t.ph.mem, Pages(s.fs) + Use(s.slots[j]))
    && Pages(t.fs) + Use(t.slots[j]) == Pages(s.fs) + Use(s.slots[j]) && Pages(t.fs) !! Use(t.slots[j])
  }

  /** A process whose pages are neither free nor changed stays as it is. */
  lemma SlotKept(ph0: Phys, f0: seq<nat>, x: Slot, tramp: nat, ph: Phys, f: seq<nat>, c: set<nat>)
    requires SlotOk(ph0, f0, x, tramp) && FreeOk(ph, f) && OnlyChanges(ph0.mem, ph.mem, c) && 0 !in ph0.mem
    requires c !! Use(x) && Pages(f) !! Use(x)
    ensures SlotOk(ph, f, x, tramp)
  {
    hide FreeOk, Implements, UserSpace, RoundUp;
    if !Unused(x) {
      var P := x.A;
      forall m | m in P.T ensures P.T[m] in ph.mem && ph.mem[P.T[m]] == ph0.mem[P.T[m]] {
        assert P.T[m] in P.T.Values;
        TableThere(ph0, f0, P, m);
      }
      TreeFrame(ph0.mem, ph.mem, P.T, P.F);
      assert forall q :: q in f ==> q in Pages(f);
    }
  }

  lemma AccountKept(all: set<nat>, s: State, j: nat, t: State)
    requires Accounted(all, s.fs, s.slots) && j < |s.slots| && |t.slots| == |s.slots| && t.slots == s.slots[j := t.slots[j]]
    requires Pages(t.fs) + Use(t.slots[j]) == Pages(s.fs) + Use(s.slots[j]) && Pages(t.fs) !! Use(t.slots[j])
    ensures Accounted(all, t.fs, t.slots)
  {
    hide Use, Pages;
    forall i: nat | i < |t.slots| ensures Use(t.slots[i]) <= all && Use(t.slots[i]) !! Pages(t.fs) { assert Apart(s.slots, i, j); }
    forall i: nat, k: nat ensures Apart(t.slots, i, k) {
      assert Apart(s.slots, i, k) && Apart(s.slots, i, j) && Apart(s.slots, j, k);
      if i < |t.slots| && k < |t.slots| && i != k {
        assert i != j ==> Use(s.slots[i]) !! Pages(s.fs);
        assert k != j ==> Use(s.slots[k]) !! Pages(s.fs);
      }
    }
    forall x | x in all ensures x in Pages(t.fs) || InUse(t.slots, x) {
      if x in Pages(s.fs) || x in Use(s.slots[j]) {
        assert x in Pages(t.fs) || x in Use(t.slots[j]);
      } else {
        var i: nat :| i < |s.slots| && x in Use(s.slots[i]);
        assert x in Use(t.slots[i]);
      }
    }
  }

  /** Whatever one slot trades with the free list, the system stays in order. */
  lemma ExchangeKeeps(all: set<nat>, tramp: nat, s: State, j: nat, t: State)
    requires SysOk(all, tramp, s) && Exchange(tramp, s, j, t)
    ensures SysOk(all, tramp, t)
  {
    hide Use, Pages, FreeOk, SlotOk, Accounted;
    AccountKept(all, s, j, t);
    forall i: nat | i < |t.slots| ensures SlotOk(t.ph, t.fs, t.slots[i], tramp) {
      if i != j {
        OthersApart(all, s, t, i, j);
        SlotKept(s.ph, s.fs, s.slots[i], tramp, t.ph, t.fs, Pages(s.fs) + Use(s.slots[j]));
      }
    }
  }

  lemma OthersApart(all: set<nat>, s: State, t: State, i: nat, j: nat)
    requires Accounted(all, s.fs, s.slots) && Accounted(all, t.fs, t.slots) && i < |s.slots| && j < |s.slots| && i != j
    requires |t.slots| == |s.slots| && t.slots[i] == s.slots[i]
    ensures Pages(s.fs) + Use(s.slots[j]) !! Use(s.slots[i]) && Pages(t.fs) !! Use(s.slots[i])
  {
    hide Use, Pages;
    assert Apart(s.slots, i, j);
  }

  /** No page of another process changes. */
  lemma OthersUntouched(all: set<nat>, tramp: nat, s: State, j: nat, t: State, i: nat, x: nat)
    requires SysOk(all, tramp, s) && Exchange(tramp, s, j, t) && i < |s.slots| && i != j && x in Use(s.slots[i])
    ensures x in s.ph.mem && x in t.ph.mem && t.ph.mem[x] == s.ph.mem[x]
  {
    hide Use, Pages, FreeOk, SlotOk;
    assert Apart(s.slots, i, j);
  }

  /**
    Every page is free, a table page, a user frame or a trapframe, and is only one of these and only
    for one process.
  */
  lemma EveryPageOnce(all: set<nat>, tramp: nat, s: State, i: nat)
    requires SysOk(all, tramp, s) && i < |s.slots| && !Unused(s.slots[i])
    ensures var x := s.slots[i];
            && Use(x) == {x.tf} + x.A.T.Values + Frames(x.A.F, 0, RoundUp(x.sz))
            && x.tf !in x.A.T.Values && x.tf !in Frames(x.A.F, 0, RoundUp(x.sz))
            && x.A.T.Values !! Frames(x.A.F, 0, RoundUp(x.sz))
            && Unshared(x.A.T) && Injective(x.A.F, 0, RoundUp(x.sz))
            && Use(x) !! Pages(s.fs) && Use(x) <= all
            && forall k: nat :: k < |s.slots| && k != i ==> Use(x) !! Use(s.slots[k])
  {
    hide FreeOk, UserSpace, RoundUp, RootEntries, MidEntries, FlatOk;
    forall k: nat | k < |s.slots| && k != i ensures Use(s.slots[i]) !! Use(s.slots[k]) { assert Apart(s.slots, i, k); }
  }

  // ----- growing and shrinking -----

  lemma RunFrames(F: map<nat, nat>, F0: map<nat, nat>, v: nat, e: nat)
    requires Added(F, F0, v, e) && v <= e
    ensures Frames(F, 0, e) == Frames(F0, 0, v) + Frames(F, v, e)
  {
    forall p | p in Frames(F, 0, e) ensures p in Frames(F0, 0, v) + Frames(F, v, e) {
      var w :| w in F && Within(0, e, w) && PtePage(F[w]) == p;
      assert Within(0, v, w) || Within(v, e, w);
    }
    forall p | p in Frames(F0, 0, v) ensures p in Frames(F, 0, e) {
      var w :| w in F0 && Within(0, v, w) && PtePage(F0[w]) == p;
      assert Within(0, e, w) && !Within(v, e, w);
    }
    forall p | p in Frames(F, v, e) ensures p in Frames(F, 0, e) {
      var w :| w in F && Within(v, e, w) && PtePage(F[w]) == p;
      assert Within(0, e, w);
    }
  }

  lemma RunInjective(F: map<nat, nat>, F0: map<nat, nat>, v: nat, e: nat)
    requires Added(F, F0, v, e) && v <= e && Injective(F0, 0, v) && Injective(F, v, e) && Frames(F0, 0, v) !! Frames(F, v, e)
    ensures Injective(F, 0, e)
  {
    forall w, x | Within(0, e, w) && Within(0, e, x) ensures TwoFrames(F, w, x) {
      assert Within(0, v, w) || Within(v, e, w);
      assert Within(0, v, x) || Within(v, e, x);
      assert Within(0, v, w) && Within(0, v, x) ==> TwoFrames(F0, w, x);
      assert Within(v, e, w) && Within(v, e, x) ==> TwoFrames(F, w, x);
      if w in F && x in F && w != x {
        assert Within(0, v, w) ==> w in F0 && PtePage(F[w]) in Frames(F0, 0, v);
        assert Within(0, v, x) ==> x in F0 && PtePage(F[x]) in Frames(F0, 0, v);
        assert Within(v, e, w) ==> PtePage(F[w]) in Frames(F, v, e);
        assert Within(v, e, x) ==> PtePage(F[x]) in Frames(F, v, e);
      }
    }
  }

  lemma GrownSpace(F: map<nat, nat>, F0: map<nat, nat>, v: nat, e: nat, tramp: nat, tf: nat)
    requires Added(F, F0, v, e) && v <= e <= TRAPFRAME && UserSpace(F0, v, tramp, tf)
    ensures UserSpace(F, e, tramp, tf)
  {
    assert !Within(v, e, TRAMPOLINE) && !Within(v, e, TRAPFRAME);
    forall w | Within(0, e, w) ensures w in F && PteFlags(F[w]) != 1 { assert Within(0, v, w) || Within(v, e, w); }
    forall w | w in F ensures Within(0, e, w) || w == TRAMPOLINE || w == TRAPFRAME {
      assert Within(v, e, w) || w in F0;
    }
  }

  lemma GrownOwns(ph0: Phys, f0: seq<nat>, x: Slot, ph: Phys, f: seq<nat>, B: Space, v: nat, e: nat)
    requires OwnsFrames(ph0, f0, x.A, 0, v) && v <= e && Run(ph, f, B, Start(ph0.mem, f0, x.A), v, e, {})
    ensures OwnsFrames(ph, f, B, 0, e) && Frames(x.A.F, 0, v) !! Pages(f0) + x.A.T.Values
  {
    hide Sys, UserSpace, Extends;
    var s := Start(ph0.mem, f0, x.A);
    assert forall q :: q in f ==> q in Pages(f);
    assert forall q :: q in Pages(f0) ==> q in f0;
    forall p | p in Frames(x.A.F, 0, v) ensures p !in Total(s) && p in ph.mem {
      var w :| w in x.A.F && Within(0, v, w) && PtePage(x.A.F[w]) == p;
    }
    RunInjective(B.F, x.A.F, v, e);
    forall w | Within(0, e, w) && w in B.F
      ensures PtePage(B.F[w]) in ph.mem && PtePage(B.F[w]) !in f && PtePage(B.F[w]) !in B.T.Values
    {
      assert Within(0, v, w) || Within(v, e, w);
      assert Within(0, v, w) ==> w in x.A.F && PtePage(B.F[w]) in Frames(x.A.F, 0, v);
      assert Within(v, e, w) ==> PtePage(B.F[w]) in Frames(B.F, v, e);
    }
  }

  /** What uvmalloc() leaves, complete or not, is a process, and it has traded pages with the free list only. */
  lemma GrowTrades(ph0: Phys, f0: seq<nat>, x: Slot, tramp: nat, ph: Phys, f: seq<nat>, B: Space, newsz: nat)
    requires x.root != 0 && ProcOk(ph0, f0, x.A, x.root, x.sz, tramp, x.tf) && x.sz <= newsz && RoundUp(newsz) <= TRAPFRAME
    requires Run(ph, f, B, Start(ph0.mem, f0, x.A), RoundUp(x.sz), RoundUp(newsz), {})
    ensures var y := Slot(B, x.root, newsz, x.tf);
            && ProcOk(ph, f, B, x.root, newsz, tramp, x.tf)
            && Pages(f) + Use(y) == Pages(f0) + Use(x) && Pages(f) !! Use(y) && FreeOk(ph, f)
            && OnlyChanges(ph0.mem, ph.mem, Pages(f0) + x.A.T.Values)
  {
    hide RoundUp, Implements, FreeOk, UserSpace, OwnsFrames, Injective, Added, Frames;
    RoundUpMonotone(x.sz, newsz);
    var v, e := RoundUp(x.sz), RoundUp(newsz);
    GrownOwns(ph0, f0, x, ph, f, B, v, e);
    GrownSpace(B.F, x.A.F, v, e, tramp, x.tf);
    RunFrames(B.F, x.A.F, v, e);
    assert RootIs(B, x.root);
    assert x.tf !in f by { assert x.tf in f ==> x.tf in Pages(f); }
    assert x.tf !in Pages(f0) by { assert x.tf in Pages(f0) ==> x.tf in f0; }
  }

  lemma ShrunkFrames(F: map<nat, nat>, lo: nat, hi: nat)
    requires lo <= hi
    ensures Frames(F - Range(lo, hi), 0, lo) == Frames(F, 0, lo) && Frames(F, 0, hi) == Frames(F, 0, lo) + Frames(F, lo, hi)
  {
    forall w | w in F && Within(0, lo, w) ensures w in F - Range(lo, hi) { assert !Within(lo, hi, w); }
    forall p | p in Frames(F, 0, hi) ensures p in Frames(F, 0, lo) + Frames(F, lo, hi) {
      var w :| w in F && Within(0, hi, w) && PtePage(F[w]) == p;
      assert Within(0, lo, w) || Within(lo, hi, w);
    }
    forall p | p in Frames(F, 0, lo) + Frames(F, lo, hi) ensures p in Frames(F, 0, hi) {
      var w :| w in F && (Within(0, lo, w) || Within(lo, hi, w)) && PtePage(F[w]) == p;
      assert Within(0, hi, w);
    }
  }

  lemma ShrunkSpace(F: map<nat, nat>, lo: nat, hi: nat, tramp: nat, tf: nat)
    requires UserSpace(F, hi, tramp, tf) && lo <= hi
    ensures UserSpace(F - Range(lo, hi), lo, tramp, tf)
  {
    var G := F - Range(lo, hi);
    assert !Within(lo, hi, TRAMPOLINE) && !Within(lo, hi, TRAPFRAME);
    forall w | Within(0, lo, w) ensures w in G && PteFlags(G[w]) != 1 { assert Within(0, hi, w) && !Within(lo, hi, w); }
    forall w | w in G ensures Within(0, lo, w) || w == TRAMPOLINE || w == TRAPFRAME {
      assert Within(0, hi, w) ==> Within(0, lo, w) || Within(lo, hi, w);
    }
  }

  lemma ShrunkOwns(ph0: Phys, f0: seq<nat>, A: Space, lo: nat, hi: nat, ph: Phys, f: seq<nat>)
    requires OwnsFrames(ph0, f0, A, 0, hi) && lo <= hi && Unmapped(ph0, f0, A, lo, hi, true, ph, f)
    ensures OwnsFrames(ph, f, Space(A.T, A.F - Range(lo, hi)), 0, lo)
    ensures Frames(A.F, 0, lo) !! Frames(A.F, lo, hi) && Frames(A.F, 0, hi) !! Pages(f0) + A.T.Values
  {
    hide Sys;
    var G := A.F - Range(lo, hi);
    assert forall q :: q in f ==> q in Pages(f);
    assert forall q :: q in Pages(f0) ==> q in f0;
    forall p | p in Frames(A.F, 0, lo) ensures p !in Frames(A.F, lo, hi) {
      var w :| w in A.F && Within(0, lo, w) && PtePage(A.F[w]) == p;
      forall z | z in A.F && Within(lo, hi, z) ensures PtePage(A.F[z]) != p {
        assert Within(0, hi, w) && Within(0, hi, z) && TwoFrames(A.F, w, z);
      }
    }
    forall p | p in Frames(A.F, 0, hi) ensures p !in Pages(f0) + A.T.Values {
      var w :| w in A.F && Within(0, hi, w) && PtePage(A.F[w]) == p;
    }
    forall w, x | Within(0, lo, w) && Within(0, lo, x) ensures TwoFrames(G, w, x) {
      assert Within(0, hi, w) && Within(0, hi, x) && TwoFrames(A.F, w, x);
    }
    forall w | Within(0, lo, w) && w in G
      ensures PtePage(G[w]) in ph.mem && PtePage(G[w]) !in f && PtePage(G[w]) !in A.T.Values
    {
      assert Within(0, hi, w) && PtePage(A.F[w]) in Frames(A.F, 0, lo);
    }
  }

  /** What uvmdealloc() leaves is a process that has given frames back. */
  lemma ShrinkTrades(ph0: Phys, f0: seq<nat>, x: Slot, tramp: nat, ph: Phys, f: seq<nat>, newsz: nat)
    requires x.root != 0 && ProcOk(ph0, f0, x.A, x.root, x.sz, tramp, x.tf) && newsz <= x.sz
    requires Unmapped(ph0, f0, x.A, RoundUp(newsz), RoundUp(x.sz), true, ph, f)
    ensures var y := Slot(Space(x.A.T, x.A.F - Range(RoundUp(newsz), RoundUp(x.sz))), x.root, newsz, x.tf);
            && ProcOk(ph, f, y.A, y.root, y.sz, tramp, y.tf)
            && Pages(f) + Use(y) == Pages(f0) + Use(x) && Pages(f) !! Use(y) && FreeOk(ph, f)
            && OnlyChanges(ph0.mem, ph.mem, Pages(f0) + Use(x))
  {
    hide RoundUp, Implements, FreeOk, UserSpace, OwnsFrames, Frames;
    RoundUpMonotone(newsz, x.sz);
    var lo, hi := RoundUp(newsz), RoundUp(x.sz);
    ShrunkOwns(ph0, f0, x.A, lo, hi, ph, f);
    ShrunkSpace(x.A.F, lo, hi, tramp, x.tf);
    ShrunkFrames(x.A.F, lo, hi);
    assert x.tf in f ==> x.tf in Pages(f);
    assert x.tf in Pages(f0) ==> x.tf in f0;
  }

  // ----- what the operations do -----

  /**
    allocproc() into slot j, fork() of slot i into slot j, freeproc() of slot i, and growproc(n) in
    slot i. NoSlot is an allocproc() that finds no unused slot.
  */
  datatype Act = NewProc(j: nat) | ForkTo(i: nat, j: nat) | Reap(i: nat) | Grow(i: nat, n: int) | NoSlot

  ghost predicate FirstUnused(slots: seq<Slot>, j: nat) {
    j < |slots| && Unused(slots[j]) && forall k :: 0 <= k < j ==> !Unused(slots[k])
  }

  const U32: nat := 0x1_0000_0000

  /** The size growproc(n) asks for: 32-bit arithmetic. */
  function Asked(sz: nat, n: int): nat { (sz + n) % U32 }

  ghost predicate NewStep(tramp: nat, s: State, j: nat, ok: bool, t: State) {
    && FirstUnused(s.slots, j) && Exchange(tramp, s, j, t)
    && (ok ==> t.slots[j].root != 0 && t.slots[j].sz == 0)
    && (!ok ==> t.slots == s.slots && |s.fs| <= 5)
  }

  ghost predicate ForkStep(tramp: nat, s: State, i: nat, j: nat, ok: bool, t: State) {
    && i < |s.slots| && !Unused(s.slots[i]) && FirstUnused(s.slots, j) && Exchange(tramp, s, j, t)
    && var x, y := s.slots[i], t.slots[j];
       && (ok ==> y.root != 0 && y.sz == x.sz && Copied(t.ph.mem, y.A.F, s.ph.mem, x.A.F, RoundUp(x.sz))
                  && ChildRuns(s.ph.mem, t.ph.mem, x.tf, y.tf))
       && (!ok ==> t.slots == s.slots && |s.fs| < 3 * RoundUp(x.sz) + 6)
  }

  ghost predicate ReapStep(tramp: nat, s: State, i: nat, t: State) {
    i < |s.slots| && !Unused(s.slots[i]) && Exchange(tramp, s, i, t) && Unused(t.slots[i])
  }

  /** Growing adds zeroed pages or fails for lack of pages; shrinking frees pages; a size that wraps around changes nothing. */
  ghost predicate GrowStep(tramp: nat, s: State, i: nat, n: int, ok: bool, t: State) {
    && i < |s.slots| && !Unused(s.slots[i]) && Exchange(tramp, s, i, t)
    && var x, y, m := s.slots[i], t.slots[i], Asked(s.slots[i].sz, n);
       && y.root == x.root && y.tf == x.tf
       && (if n > 0 && m >= x.sz then
             && (forall w :: w in x.A.F ==> w in y.A.F && y.A.F[w] == x.A.F[w])
             && OnlyChanges(s.ph.mem, t.ph.mem, Pages(s.fs) + x.A.T.Values)
             && (if ok then y.sz == m && Zeroed(t.ph.mem, y.A.F, RoundUp(x.sz), RoundUp(m))
                 else y.sz == x.sz && y.A.F == x.A.F && |s.fs| < 3 * (RoundUp(m) - RoundUp(x.sz)))
           else if n < 0 && m < x.sz then
             && ok && y.sz == m && y.A == Space(x.A.T, x.A.F - Range(RoundUp(m), RoundUp(x.sz)))
             && OnlyChanges(s.ph.mem, t.ph.mem, x.A.T.Values + Frames(x.A.F, RoundUp(m), RoundUp(x.sz)))
           else ok && t == s)
  }

  ghost predicate Step(tramp: nat, s: State, a: Act, ok: bool, t: State) {
    match a
    case NewProc(j) => NewStep(tramp, s, j, ok, t)
    case ForkTo(i, j) => ForkStep(tramp, s, i, j, ok, t)
    case Reap(i) => ok && ReapStep(tramp, s, i, t)
    case Grow(i, n) => GrowStep(tramp, s, i, n, ok, t)
    case NoSlot => !ok && t == s && forall j :: 0 <= j < |s.slots| ==> !Unused(s.slots[j])
  }

  lemma StepKeeps(all: set<nat>, tramp: nat, s: State, a: Act, ok: bool, t: State)
    requires SysOk(all, tramp, s) && Step(tramp, s, a, ok, t)
    ensures SysOk(all, tramp, t)
  {
    hide SysOk, Exchange, Copied, ChildRuns, Zeroed;
    match a
    case NewProc(j) => ExchangeKeeps(all, tramp, s, j, t);
    case ForkTo(_, j) => ExchangeKeeps(all, tramp, s, j, t);
    case Reap(i) => ExchangeKeeps(all, tramp, s, i, t);
    case Grow(i, _) => ExchangeKeeps(all, tramp, s, i, t);
    case NoSlot =>
  }

  /** The states ss of a run of the acts with their outcomes. */
  ghost predicate IsRun(tramp: nat, ss: seq<State>, acts: seq<Act>, oks: seq<bool>) {
    && |ss| == |acts| + 1 && |oks| == |acts|
    && forall k :: 0 <= k < |acts| ==> Step(tramp, ss[k], acts[k], oks[k], ss[k + 1])
  }

  /** In every state of every run all processes own their memory and every page is accounted for. */
  lemma {:induction false} RunKeeps(all: set<nat>, tramp: nat, ss: seq<State>, acts: seq<Act>, oks: seq<bool>, k: nat)
    requires IsRun(tramp, ss, acts, oks) && SysOk(all, tramp, ss[0]) && k < |ss|
    ensures SysOk(all, tramp, ss[k])
  {
    hide SysOk, Step;
    if k > 0 {
      RunKeeps(all, tramp, ss, acts, oks, k - 1);
      assert Step(tramp, ss[k - 1], acts[k - 1], oks[k - 1], ss[k - 1 + 1]);
      StepKeeps(all, tramp, ss[k - 1], acts[k - 1], oks[k - 1], ss[k]);
    }
  }

  // ----- the code -----

  ghost function Upto(lo: nat, hi: nat): (r: set<nat>)
    ensures forall p :: p in r <==> lo <= p < hi
  {
    set p: nat | lo <= p < hi && Within(lo, hi, p)
  }

  lemma InPages(fs: seq<nat>, p: nat)
    ensures p in fs <==> p in Pages(fs)
  {
  }

  /** freerange(): the whole pages between two addresses go on the free list. */
  method FreeRange(k: Kernel, start: nat, end: nat)
    requires FreeOk(k.ph, k.free) && RoundUp(start) > 0
    requires forall p: nat :: RoundUp(start) <= p < end / 4096 ==> p in k.ph.mem && p !in k.free
    modifies k
    ensures FreeOk(k.ph, k.free) && Pages(k.free) == Pages(old(k.free)) + Upto(RoundUp(start), end / 4096)
    ensures k.ph.mem.Keys == old(k.ph).mem.Keys
  {
    hide FreeOk, RoundUp;
    var p := RoundUp(start);
    while (p + 1) * 4096 <= end
      invariant RoundUp(start) <= p && (p <= end / 4096 || p == RoundUp(start)) && FreeOk(k.ph, k.free)
      invariant Pages(k.free) == Pages(old(k.free)) + Upto(RoundUp(start), p) && k.ph.mem.Keys == old(k.ph).mem.Keys
    {
      InPages(old(k.free), p);
      InPages(k.free, p);
      k.Kfree(p);
      p := p + 1;
    }
    assert Upto(RoundUp(start), p) == Upto(RoundUp(start), end / 4096);
  }

  /** An empty table over the pages that freerange() has put on the list. */
  lemma BootOk(ph: Phys, fs: seq<nat>, slots: seq<Slot>, tramp: nat)
    requires FreeOk(ph, fs) && 0 !in ph.mem && forall i :: 0 <= i < |slots| ==> Unused(slots[i])
    ensures SysOk(Pages(fs), tramp, State(ph, fs, slots))
  {
    hide SpacePages;
    forall p | p in Pages(fs) ensures p in ph.mem {
      var i :| 0 <= i < |fs| && fs[i] == p;
      assert NextFree(ph.mem, fs, i);
    }
    forall i: nat, j: nat ensures Apart(slots, i, j) {}
  }

  class ProcTable {
    const k: Kernel
    const procs: seq<Proc>
    const tramp: nat                // the trampoline page, which is not on the list
    ghost const all: set<nat>
    ghost var spaces: seq<Space>

    ghost function SlotsTo(n: nat): (r: seq<Slot>)
      requires n <= |procs| && n <= |spaces|
      reads this, procs
      ensures |r| == n
      ensures forall i :: 0 <= i < n ==> r[i] == Slot(spaces[i], procs[i].pagetable, procs[i].sz, procs[i].trapframe)
    {
      if n == 0 then []
      else SlotsTo(n - 1) + [Slot(spaces[n - 1], procs[n - 1].pagetable, procs[n - 1].sz, procs[n - 1].trapframe)]
    }

    ghost predicate Shape() reads this { |spaces| == |procs| && forall i, j :: 0 <= i < j < |procs| ==> procs[i] != procs[j] }

    ghost function Now(): State
      requires Shape()
      reads this, k, procs
    {
      State(k.ph, k.free, SlotsTo(|procs|))
    }

    ghost predicate Ok() reads this, k, procs { Shape() && SysOk(all, tramp, Now()) }

    /** kinit() and procinit(): all pages between two addresses are free, and no slot is used. */
    constructor (nproc: nat, mem: Mem, start: nat, end: nat, tramp: nat)
      requires 0 !in mem && RoundUp(start) > 0 && forall p: nat :: RoundUp(start) <= p < end / 4096 ==> p in mem
      ensures Ok() && fresh(k) && fresh(set p | p in procs) && |procs| == nproc && this.tramp == tramp
      ensures all == Upto(RoundUp(start), end / 4096) && Pages(k.free) == all
      ensures forall i :: 0 <= i < nproc ==> Unused(Now().slots[i])
    {
      var ker := new Kernel(mem);
      FreeRange(ker, start, end);
      ghost var ph, fs := ker.ph, ker.free;
      var ps: seq<Proc> := [];
      var i := 0;
      while i < nproc
        invariant i == |ps| <= nproc && fresh(set p | p in ps) && ker.ph == ph && ker.free == fs
        invariant forall j :: 0 <= j < i ==> ps[j].pagetable == 0 && ps[j].sz == 0 && ps[j].trapframe == 0
        invariant forall a, b :: 0 <= a < b < i ==> ps[a] != ps[b]
      {
        var p := new Proc();
        ps := ps + [p];
        i := i + 1;
      }
      k, procs, this.tramp := ker, ps, tramp;
      all := Pages(ker.free);
      spaces := seq(nproc, _ => Space(map[], map[]));
      new;
      BootOk(k.ph, k.free, SlotsTo(|procs|), tramp);
    }

    /** The scan of allocproc() for an unused slot. */
    method Find() returns (j: int)
      requires Ok()
      ensures j == -1 ==> forall i :: 0 <= i < |procs| ==> !Unused(Now().slots[i])
      ensures j != -1 ==> 0 <= j < |procs| && FirstUnused(Now().slots, j)
    {
      hide SysOk, SlotOk;
      j := 0;
      while j < |procs|
        invariant 0 <= j <= |procs| && forall i :: 0 <= i < j ==> !Unused(Now().slots[i])
      {
        if procs[j].pagetable == 0 && procs[j].trapframe == 0 && procs[j].sz == 0 { return; }
        j := j + 1;
      }
      j := -1;
    }

    /** allocproc(): a new process without user memory. */
    method Create() returns (ok: bool, ghost a: Act)
      requires Ok()
      modifies this, k, procs
      ensures Ok() && Step(tramp, old(Now()), a, ok, Now()) && (a.NewProc? || a.NoSlot?)
    {
      hide SysOk, SlotOk, ProcOk, Took, Exchange, Use;
      ghost var s := Now();
      SysParts(all, tramp, s);
      var j := Find();
      if j == -1 { return false, NoSlot; }
      ghost var A;
      ok, A := AllocProc(k, procs[j], tramp);
      if ok { spaces := spaces[j := A]; }
      ghost var t := Now();
      assert t.slots == s.slots[j := t.slots[j]];
      assert !ok ==> t.slots == s.slots;
      TakenSlot(tramp, s, j, ok, t);
      a := NewProc(j);
      StepKeeps(all, tramp, s, a, ok, t);
    }

    /** The memory side of fork() in the process of slot i. */
    method ForkFrom(i: nat) returns (ok: bool, ghost a: Act)
      requires Ok() && i < |procs| && !Unused(Now().slots[i])
      modifies this, k, procs
      ensures Ok() && Step(tramp, old(Now()), a, ok, Now()) && (a.NoSlot? || (a.ForkTo? && a.i == i))
    {
      hide SysOk, SlotOk, ProcOk, Took, Exchange, Use, Copied, ChildRuns, RoundUp;
      ghost var s := Now();
      UsedSlot(all, tramp, s, i);
      var j := Find();
      if j == -1 { return false, NoSlot; }
      ghost var C;
      ok, C := Fork(k, procs[i], procs[j], tramp, spaces[i]);
      if ok { spaces := spaces[j := C]; }
      ghost var t := Now();
      assert t.slots == s.slots[j := t.slots[j]];
      assert !ok ==> t.slots == s.slots;
      SysParts(all, tramp, s);
      ForkedSlot(tramp, s, i, j, ok, t);
      a := ForkTo(i, j);
      StepKeeps(all, tramp, s, a, ok, t);
    }

    /** freeproc() of the process of slot i. */
    method Free(i: nat)
      requires Ok() && i < |procs| && !Unused(Now().slots[i])
      modifies this, k, procs
      ensures Ok() && Step(tramp, old(Now()), Reap(i), true, Now())
    {
      hide SysOk, SlotOk, ProcOk, Exchange;
      ghost var s := Now();
      UsedSlot(all, tramp, s, i);
      SysParts(all, tramp, s);
      FreeProc(k, procs[i], spaces[i], tramp);
      ghost var t := Now();
      assert t.slots == s.slots[i := t.slots[i]];
      FreedSlot(all, tramp, s, i, t);
      StepKeeps(all, tramp, s, Reap(i), true, t);
    }

    /** growproc() in the process of slot i. */
    method GrowProc(i: nat, n: int) returns (ok: bool)
      requires Ok() && i < |procs| && !Unused(Now().slots[i]) && -0x8000_0000 <= n < 0x8000_0000
      modifies this, k, procs
      ensures Ok() && Step(tramp, old(Now()), Grow(i, n), ok, Now())
    {
      hide SysOk, SlotOk, ProcOk, Exchange, Use, RoundUp, Sys, AllLeaves, OwnsFrames, Run, Zeroed, Unmapped;
      ghost var s, A, root, old_sz := Now(), spaces[i], procs[i].pagetable, procs[i].sz;
      UsedSlot(all, tramp, s, i);
      var m := (procs[i].sz + n) % U32;
      GrowReady(s, i, tramp, m);
      if n > 0 {
        assert m >= old_sz ==> m == old_sz + n;
        var r, good, B := k.Uvmalloc(procs[i].pagetable, procs[i].sz, m, A);
        if r == 0 {
          spaces := spaces[i := B];
          ok := false;
        } else {
          spaces := spaces[i := B];
          procs[i].sz := r;
          ok := true;
        }
        ghost var t := Now();
        assert t.slots == s.slots[i := t.slots[i]];
        if m >= old_sz {
          GrownSlot(all, tramp, s, i, n, ok, t);
        } else {
          assert t.slots == s.slots;
          SameState(all, tramp, s, i, n);
        }
      } else if n < 0 {
        var r, B := k.Uvmdealloc(procs[i].pagetable, procs[i].sz, m, A);
        spaces := spaces[i := B];
        procs[i].sz := r;
        ok := true;
        ghost var t := Now();
        assert t.slots == s.slots[i := t.slots[i]];
        if m < old_sz {
          ShrunkSlot(all, tramp, s, i, n, t);
        } else {
          assert t.slots == s.slots;
          SameState(all, tramp, s, i, n);
        }
      } else {
        ok := true;
        SameState(all, tramp, s, i, n);
      }
      StepKeeps(all, tramp, s, Grow(i, n), ok, Now());
    }
  }

  lemma SysParts(all: set<nat>, tramp: nat, s: State)
    requires SysOk(all, tramp, s)
    ensures FreeOk(s.ph, s.fs) && 0 !in s.ph.mem
  {
  }

  lemma UsedSlot(all: set<nat>, tramp: nat, s: State, i: nat)
    requires SysOk(all, tramp, s) && i < |s.slots| && !Unused(s.slots[i])
    ensures var x := s.slots[i];
            && x.root != 0 && x.sz < U32 && ProcOk(s.ph, s.fs, x.A, x.root, x.sz, tramp, x.tf)
            && Freeable(s.ph, s.fs, x.A, x.root, x.sz, tramp, x.tf) && SlotOk(s.ph, s.fs, x, tramp)
            && Use(x) !! Pages(s.fs)
  {
    hide ProcOk, FreeOk, Use, Pages;
  }

  /** Pages that leave the free list for an unused slot. */
  lemma TakenSlot(tramp: nat, s: State, j: nat, ok: bool, t: State)
    requires FirstUnused(s.slots, j) && |t.slots| == |s.slots| && t.slots == s.slots[j := t.slots[j]] && (!ok ==> t.slots == s.slots)
    requires ok ==> t.slots[j].root != 0 && t.slots[j].sz == 0
                    && ProcOk(t.ph, t.fs, t.slots[j].A, t.slots[j].root, 0, tramp, t.slots[j].tf)
    requires FreeOk(s.ph, s.fs) && (!ok ==> FreeOk(t.ph, t.fs) && |s.fs| <= 5)
    requires Took(s.ph.mem, s.fs, t.ph.mem, t.fs,
                  if ok then Held(t.slots[j].A, t.slots[j].root, 0, t.slots[j].tf) else {})
    ensures NewStep(tramp, s, j, ok, t)
  {
    hide SpacePages, RoundUp, FreeOk, Pages, Implements, OwnsFrames, UserSpace;
  }

  lemma ForkedSlot(tramp: nat, s: State, i: nat, j: nat, ok: bool, t: State)
    requires i < |s.slots| && !Unused(s.slots[i]) && FirstUnused(s.slots, j) && |t.slots| == |s.slots|
    requires t.slots == s.slots[j := t.slots[j]] && (!ok ==> t.slots == s.slots) && s.slots[i].sz < U32
    requires ProcOk(t.ph, t.fs, s.slots[i].A, s.slots[i].root, s.slots[i].sz, tramp, s.slots[i].tf)
    requires OnlyChanges(s.ph.mem, t.ph.mem, Pages(s.fs))
    requires !ok ==> Pages(t.fs) == Pages(s.fs) && |s.fs| < 3 * RoundUp(s.slots[i].sz) + 6
    requires var x, y := s.slots[i], t.slots[j];
             ok ==> && y.sz == x.sz && ProcOk(t.ph, t.fs, y.A, y.root, y.sz, tramp, y.tf) && y.root != 0
                    && Took(s.ph.mem, s.fs, t.ph.mem, t.fs, Held(y.A, y.root, y.sz, y.tf))
                    && Copied(t.ph.mem, y.A.F, s.ph.mem, x.A.F, RoundUp(x.sz)) && ChildRuns(s.ph.mem, t.ph.mem, x.tf, y.tf)
    ensures ForkStep(tramp, s, i, j, ok, t)
  {
    hide SpacePages, RoundUp, FreeOk, Pages, Implements, OwnsFrames, UserSpace, Copied, ChildRuns;
  }

  lemma FreedSlot(all: set<nat>, tramp: nat, s: State, i: nat, t: State)
    requires SysOk(all, tramp, s) && i < |s.slots| && !Unused(s.slots[i]) && |t.slots| == |s.slots|
    requires t.slots == s.slots[i := t.slots[i]] && Unused(t.slots[i]) && FreeOk(t.ph, t.fs)
    requires Pages(t.fs) == Pages(s.fs) + Use(s.slots[i]) && OnlyChanges(s.ph.mem, t.ph.mem, Use(s.slots[i]))
    ensures ReapStep(tramp, s, i, t)
  {
    hide SpacePages, RoundUp, FreeOk, Pages, ProcOk;
  }

  lemma SameState(all: set<nat>, tramp: nat, s: State, i: nat, n: int)
    requires SysOk(all, tramp, s) && i < |s.slots| && !Unused(s.slots[i])
    requires n == 0 || (n > 0 && Asked(s.slots[i].sz, n) < s.slots[i].sz) || (n < 0 && Asked(s.slots[i].sz, n) >= s.slots[i].sz)
    ensures GrowStep(tramp, s, i, n, true, s)
  {
    hide FreeOk, Pages, ProcOk, Use;
  }

  /** A 32-bit size leaves room below the trapframe. */
  lemma GrowReady(s: State, i: nat, tramp: nat, m: nat)
    requires i < |s.slots| && m < U32
    requires var x := s.slots[i]; x.sz < U32 && ProcOk(s.ph, s.fs, x.A, x.root, x.sz, tramp, x.tf)
    ensures var x := s.slots[i];
            && Sys(s.ph, s.fs, x.A) && RootIs(x.A, x.root) && RoundUp(m) <= TRAPFRAME && RoundUp(x.sz) <= TRAPFRAME
            && RoundUp(m) <= NVPN && RoundUp(x.sz) <= NVPN
            && (forall w :: RoundUp(x.sz) <= w < RoundUp(m) ==> w !in x.A.F)
            && (m < x.sz ==> OwnsFrames(s.ph, s.fs, x.A, RoundUp(m), RoundUp(x.sz)) && AllLeaves(x.A.F, RoundUp(m), RoundUp(x.sz)))
  {
    hide Sys, RootIs;
    var x := s.slots[i];
    var lo, hi := RoundUp(m), RoundUp(x.sz);
    assert lo <= 0x10_0000 && hi <= 0x10_0000 && 0x10_0000 <= TRAPFRAME;
    if m < x.sz {
      RoundUpMonotone(m, x.sz);
      forall w | Within(lo, hi, w) ensures Within(0, hi, w) {}
      forall w, z | Within(lo, hi, w) && Within(lo, hi, z) ensures TwoFrames(x.A.F, w, z) { assert Within(0, hi, w) && Within(0, hi, z); }
    }
  }

  lemma GrownSlot(all: set<nat>, tramp: nat, s: State, i: nat, n: int, ok: bool, t: State)
    requires SysOk(all, tramp, s) && i < |s.slots| && !Unused(s.slots[i]) && |t.slots| == |s.slots| && n > 0
    requires t.slots == s.slots[i := t.slots[i]]
    requires var x, y, m := s.slots[i], t.slots[i], Asked(s.slots[i].sz, n);
             && m >= x.sz && y.root == x.root && y.tf == x.tf && y.sz == (if ok then m else x.sz) && RoundUp(m) <= TRAPFRAME
             && Run(t.ph, t.fs, y.A, Start(s.ph.mem, s.fs, x.A), RoundUp(x.sz), RoundUp(y.sz), {})
             && (ok ==> Zeroed(t.ph.mem, y.A.F, RoundUp(x.sz), RoundUp(m)))
             && (!ok ==> y.A.F == x.A.F && |s.fs| < 3 * (RoundUp(m) - RoundUp(x.sz)))
    ensures GrowStep(tramp, s, i, n, ok, t)
  {
    hide RoundUp, ProcOk, Run, Use, Zeroed, FreeOk, SysOk, Pages;
    var x, y := s.slots[i], t.slots[i];
    UsedSlot(all, tramp, s, i);
    RoundUpMonotone(y.sz, Asked(x.sz, n));
    GrowTrades(s.ph, s.fs, x, tramp, t.ph, t.fs, y.A, y.sz);
    RunKeepsMap(t.ph, t.fs, y.A, Start(s.ph.mem, s.fs, x.A), RoundUp(x.sz), RoundUp(y.sz));
    TablesUsed(x);
    assert OnlyChanges(s.ph.mem, t.ph.mem, Pages(s.fs) + Use(x));
  }

  lemma TablesUsed(x: Slot)
    requires x.root != 0
    ensures x.A.T.Values <= Use(x)
  {
  }

  lemma RunKeepsMap(ph: Phys, fs: seq<nat>, A: Space, s: Start, v: nat, e: nat)
    requires Run(ph, fs, A, s, v, e, {})
    ensures forall w :: w in s.A.F ==> w in A.F && A.F[w] == s.A.F[w]
  {
    hide Sys, Account, Injective;
    forall w | w in s.A.F ensures w in A.F && A.F[w] == s.A.F[w] { assert !Within(v, e, w); }
  }

  lemma ShrunkSlot(all: set<nat>, tramp: nat, s: State, i: nat, n: int, t: State)
    requires SysOk(all, tramp, s) && i < |s.slots| && !Unused(s.slots[i]) && |t.slots| == |s.slots| && n < 0
    requires t.slots == s.slots[i := t.slots[i]]
    requires var x, y, m := s.slots[i], t.slots[i], Asked(s.slots[i].sz, n);
             && m < x.sz && y == Slot(Space(x.A.T, x.A.F - Range(RoundUp(m), RoundUp(x.sz))), x.root, m, x.tf)
             && Unmapped(s.ph, s.fs, x.A, RoundUp(m), RoundUp(x.sz), true, t.ph, t.fs)
    ensures GrowStep(tramp, s, i, n, true, t)
  {
    hide RoundUp, ProcOk, Use, FreeOk, SysOk, Pages, Range, Sys;
    UsedSlot(all, tramp, s, i);
    ShrinkTrades(s.ph, s.fs, s.slots[i], tramp, t.ph, t.fs, Asked(s.slots[i].sz, n));
  }
}
