/**
  The processes that wait for the disk (virtio_disk_rw(), alloc3_desc(), free_chain() and
  virtio_disk_intr() in kernel/virtio_disk.c), with sleep() and wakeup(). The rings are the subject
  of Virtqueue; here a request is with the device, finished by the device, or seen by the interrupt
  handler. The device and the sleep locks of the buffers act without disk.vdisk_lock.
*/
module DiskSleep {
  import opened SleepWakeup
  import V = Virtqueue

  /** The channel of disk.free, and those of the buffers. */
  const FREE: nat := 1

  function Chan(b: nat): nat { b + 2 }

  /**
    The free descriptors, the buffers whose sleep lock is taken, those with b->disk == 1, and among
    them those that the device has finished and the interrupt handler has not seen.
  */
  datatype Dk = Dk(free: set<nat>, claimed: set<nat>, busy: set<nat>, done: set<nat>)

  /** virtio_disk_rw() waits for three descriptors, then for its buffer. */
  predicate Ready(c: nat, s: Dk) { if c == FREE then |s.free| >= 3 else c >= 2 && c - 2 !in s.busy }

  /** Where a process is. */
  datatype Ctl =
    | Idle
    | Has(b: nat)                       // has the sleep lock of buffer b
    | Try(b: nat, ds: seq<nat>)         // in alloc3_desc(), with descriptors ds
    | UndoWake(b: nat, ds: seq<nat>)    // alloc3_desc() has failed and given one back, about to call wakeup()
    | Undo(b: nat, ds: seq<nat>)        // has yet to give ds back
    | Wait(b: nat, ds: seq<nat>)        // waits for the device
    | FreeWake(b: nat, ds: seq<nat>)    // free_chain() has freed one, about to call wakeup()
    | Freeing(b: nat, ds: seq<nat>)     // has yet to free ds
    | Intr                              // in the loop of virtio_disk_intr()
    | IntrWake(b: nat)                  // about to call wakeup() for a buffer

  predicate ForBuf(at: Ctl) { !at.Idle? && !at.Intr? && !at.IntrWake? }

  function Held(at: Ctl): seq<nat> { if ForBuf(at) && !at.Has? then at.ds else [] }

  predicate Lowest(s: set<nat>, d: nat) { d in s && forall e :: e in s ==> d <= e }

  /** free_desc() of the first of ds. */
  predicate Gives(s: Dk, ds: seq<nat>, i: Instr<Dk>) { ds != [] && i == Update(s.(free := s.free + {ds[0]})) }

  /** The device finishes a request. */
  predicate Finishes(s: Dk, t: Dk) { exists b :: b in s.busy && t == s.(done := s.done + {b}) }

  /** The functions: process p at a point of the code, with the disk in state s, does i and is then at next. */
  predicate Prog(p: nat, at: Ctl, s: Dk, i: Instr<Dk>, next: Ctl) {
    match at
    case Idle =>
      || (i == Lock && next == Intr)
      || (i.Bypass? && Finishes(s, i.t) && next == Idle)
      || (next.Has? && next.b !in s.claimed && i == Bypass(s.(claimed := s.claimed + {next.b})))
    case Has(b) => (i == Lock && next == Try(b, [])) || (i == Bypass(s.(claimed := s.claimed - {b})) && next == Idle)
    case Try(b, ds) =>
      if |ds| >= 3 then i == Update(s.(busy := s.busy + {b})) && next == Wait(b, ds)
      else if s.free != {} then
        && next.Try? && |next.ds| == |ds| + 1 && next == Try(b, ds + [next.ds[|ds|]])
        && Lowest(s.free, next.ds[|ds|]) && i == Update(s.(free := s.free - {next.ds[|ds|]}))
      else if ds == [] then i == SleepOn(FREE) && next == Try(b, [])
      else Gives(s, ds, i) && next == UndoWake(b, ds[1..])
    case UndoWake(b, ds) => i == WakeUp(FREE) && next == Undo(b, ds)
    case Undo(b, ds) =>
      if ds == [] then i == SleepOn(FREE) && next == Try(b, []) else Gives(s, ds, i) && next == UndoWake(b, ds[1..])
    case Wait(b, ds) =>
      if b in s.busy then i == SleepOn(Chan(b)) && next == Wait(b, ds) else Gives(s, ds, i) && next == FreeWake(b, ds[1..])
    case FreeWake(b, ds) => i == WakeUp(FREE) && next == Freeing(b, ds)
    case Freeing(b, ds) =>
      if ds == [] then i == Unlock && next == Has(b) else Gives(s, ds, i) && next == FreeWake(b, ds[1..])
    case Intr =>
      if s.done == {} then i == Unlock && next == Idle
      else next.IntrWake? && next.b in s.done && i == Update(s.(busy := s.busy - {next.b}, done := s.done - {next.b}))
    case IntrWake(b) => i == WakeUp(Chan(b)) && next == Intr
  }

  ghost function AllDescs(): (s: set<nat>)
    ensures forall d: nat :: d in s <==> d < V.NUM
  {
    {0, 1, 2, 3, 4, 5, 6, 7}
  }

  ghost predicate DiskRun(ms: seq<Machine<Dk, Ctl>>, ls: seq<Label<Dk, Ctl>>) {
    Run(Ready, Prog, Idle, ms, ls) && ms[0].s == Dk(AllDescs(), {}, {}, {})
  }

  // ----- the invariant -----

  ghost predicate Distinct(ds: seq<nat>) { forall i, j :: 0 <= i < j < |ds| ==> ds[i] != ds[j] }

  /** Where a process holds the lock, what it owns, and that a buffer with the device has its process waiting. */
  ghost predicate AtOk(s: Dk, at: Ctl) {
    && Distinct(Held(at)) && (forall d :: d in Held(at) ==> d < V.NUM && d !in s.free)
    && (at.Undo? || at.UndoWake? ==> |s.free| + |at.ds| <= 2)
    && (at.Try? ==> |at.ds| <= 3) && (at.Wait? ==> |at.ds| == 3)
    && (ForBuf(at) ==> at.b in s.claimed && (at.b in s.busy ==> at.Wait?))
  }

  predicate PcOk(pc: Pc, at: Ctl) {
    && (pc.Out? <==> at.Idle? || at.Has?)
    && (Asleep(pc) ==> (at.Try? && at.ds == [] && pc.c == FREE) || (at.Wait? && pc.c == Chan(at.b)))
    && (pc.Wake? || pc.WakeLocked? ==> at.Undo? || at.Freeing? || at.Intr?)
  }

  ghost predicate PlaceOk(m: Machine<Dk, Ctl>, q: nat)
    requires q < |m.procs|
  {
    AtOk(m.s, m.procs[q].at) && PcOk(m.procs[q].pc, m.procs[q].at)
  }

  ghost predicate Apart(x: Ctl, y: Ctl) {
    (forall d :: d in Held(x) ==> d !in Held(y)) && (ForBuf(x) && ForBuf(y) ==> x.b != y.b)
  }

  ghost predicate PairOk(m: Machine<Dk, Ctl>, q: nat, r: nat)
    requires q < |m.procs| && r < |m.procs|
  {
    q != r ==> Apart(m.procs[q].at, m.procs[r].at)
  }

  /** Descriptor d is free or some process has it. */
  ghost predicate DescOk(m: Machine<Dk, Ctl>, d: nat) {
    d in m.s.free || exists q: nat :: q < |m.procs| && d in Held(m.procs[q].at)
  }

  /** Some process waits for buffer b. */
  ghost predicate BusyOk(m: Machine<Dk, Ctl>, b: nat) {
    exists q: nat :: q < |m.procs| && m.procs[q].at.Wait? && m.procs[q].at.b == b
  }

  ghost predicate SetsOk(s: Dk) { s.done <= s.busy <= s.claimed && forall d :: d in s.free ==> d < V.NUM }

  ghost predicate Ok(m: Machine<Dk, Ctl>) {
    && SetsOk(m.s)
    && (forall q: nat {:trigger PlaceOk(m, q)} :: q < |m.procs| ==> PlaceOk(m, q))
    && (forall q: nat, r: nat {:trigger PairOk(m, q, r)} :: q < |m.procs| && r < |m.procs| ==> PairOk(m, q, r))
    && (forall d: nat {:trigger DescOk(m, d)} :: d < V.NUM ==> DescOk(m, d))
    && (forall b {:trigger BusyOk(m, b)} :: b in m.s.busy ==> BusyOk(m, b))
  }

  // ----- what an instruction keeps -----

  function After(s: Dk, i: Instr<Dk>): Dk { if i.Update? || i.Bypass? then i.t else s }

  /** The code gives a descriptor back here. */
  predicate Giving(s: Dk, at: Ctl) {
    Held(at) != [] && (at.Undo? || at.Freeing? || (at.Wait? && at.b !in s.busy) || (at.Try? && s.free == {} && |at.ds| < 3))
  }

  /** The code takes a descriptor here. */
  predicate Taking(s: Dk, at: Ctl) { at.Try? && |at.ds| < 3 && s.free != {} }

  lemma GiveOk(p: nat, s: Dk, at: Ctl, i: Instr<Dk>, next: Ctl)
    requires AtOk(s, at) && SetsOk(s) && Prog(p, at, s, i, next) && Giving(s, at)
    ensures AtOk(After(s, i), next) && SetsOk(After(s, i)) && Held(next) == Held(at)[1..] && Gives(s, Held(at), i)
    ensures ForBuf(next) && next.b == at.b && !next.Wait?
  {
    var ds, t := Held(at), After(s, i);
    assert forall d :: d in ds[1..] ==> d in ds && d != ds[0];
    assert |t.free| <= |s.free| + 1;
  }

  lemma TakeOk(p: nat, s: Dk, at: Ctl, i: Instr<Dk>, next: Ctl)
    requires AtOk(s, at) && SetsOk(s) && Prog(p, at, s, i, next) && Taking(s, at)
    ensures AtOk(After(s, i), next) && SetsOk(After(s, i))
    ensures next.Try? && next.b == at.b && Held(next) == Held(at) + [next.ds[|at.ds|]] && next.ds[|at.ds|] in s.free
    ensures After(s, i) == s.(free := s.free - {next.ds[|at.ds|]})
  {
  }

  /** The process itself. */
  lemma AtKept(p: nat, s: Dk, at: Ctl, i: Instr<Dk>, next: Ctl)
    requires AtOk(s, at) && SetsOk(s) && Prog(p, at, s, i, next)
    ensures AtOk(After(s, i), next) && SetsOk(After(s, i))
  {
    if Taking(s, at) {
      TakeOk(p, s, at, i, next);
    } else if Giving(s, at) {
      GiveOk(p, s, at, i, next);
    }
  }

  /** Another process, which does not hold disk.vdisk_lock if the instruction needs it. */
  lemma OtherKept(p: nat, s: Dk, at: Ctl, i: Instr<Dk>, next: Ctl, x: Ctl)
    requires AtOk(s, at) && AtOk(s, x) && Apart(at, x) && Apart(x, at) && SetsOk(s) && Prog(p, at, s, i, next)
    requires i.Update? ==> !x.Undo? && !x.UndoWake?
    ensures AtOk(After(s, i), x) && Apart(next, x) && Apart(x, next)
  {
    if Taking(s, at) {
      TakeOk(p, s, at, i, next);
    } else if Giving(s, at) {
      GiveOk(p, s, at, i, next);
    }
  }

  /** Every descriptor still has its place, and every buffer its process. */
  lemma OwnersKept(p: nat, s: Dk, at: Ctl, i: Instr<Dk>, next: Ctl, d: nat)
    requires AtOk(s, at) && SetsOk(s) && Prog(p, at, s, i, next)
    ensures d in s.free || d in Held(at) ==> d in After(s, i).free || d in Held(next)
    ensures d !in s.free && d in After(s, i).free ==> d in Held(at)
    ensures at.Wait? && at.b in After(s, i).busy ==> next.Wait? && next.b == at.b
    ensures forall b :: b in After(s, i).busy && b !in s.busy ==> next.Wait? && next.b == b
  {
    if Taking(s, at) {
      TakeOk(p, s, at, i, next);
      assert d in Held(at) ==> d in Held(next);
    } else if Giving(s, at) {
      GiveOk(p, s, at, i, next);
      assert d in Held(at) ==> d == Held(at)[0] || d in Held(at)[1..];
    }
  }

  // ----- steps of the machine -----

  /** Between Try and Freeing, and in the interrupt handler, a process holds the lock or sleeps. */
  lemma LockHolder(m: Machine<Dk, Ctl>, q: nat)
    requires Inv(Ready, m) && Ok(m) && q < |m.procs| && (m.procs[q].at.Undo? || m.procs[q].at.UndoWake?)
    ensures m.lk == By(q)
  {
    assert Good(Ready, m, q) && PlaceOk(m, q);
  }

  lemma ExecIs(m: Machine<Dk, Ctl>, l: Label<Dk, Ctl>, n: Machine<Dk, Ctl>)
    requires Step(Ready, m, l, n) && Obeys(Prog, m, l) && l.Exec?
    ensures l.p < |m.procs| == |n.procs| && Prog(l.p, m.procs[l.p].at, m.s, l.i, l.at) && n.s == After(m.s, l.i)
    ensures n.procs[l.p].at == l.at && forall q: nat :: q < |m.procs| && q != l.p ==> n.procs[q] == m.procs[q]
    ensures l.i.Update? ==> m.procs[l.p].pc.In?
  {
    hide Prog, Ready;
  }

  lemma ExecPc(m: Machine<Dk, Ctl>, l: Label<Dk, Ctl>, n: Machine<Dk, Ctl>)
    requires Step(Ready, m, l, n) && Obeys(Prog, m, l) && l.Exec? && PlaceOk(m, l.p)
    ensures l.p < |n.procs| && PcOk(n.procs[l.p].pc, l.at)
  {
    hide Ready, AtOk;
  }

  lemma ExecPlace(m: Machine<Dk, Ctl>, l: Label<Dk, Ctl>, n: Machine<Dk, Ctl>, q: nat)
    requires Inv(Ready, m) && Ok(m) && Step(Ready, m, l, n) && Obeys(Prog, m, l) && l.Exec? && q < |m.procs|
    ensures q < |n.procs| && PlaceOk(n, q) && SetsOk(n.s)
  {
    hide Inv, Prog, AtOk, PcOk, Step, Apart, SetsOk;
    ExecIs(m, l, n);
    assert PlaceOk(m, l.p) && PlaceOk(m, q);
    AtKept(l.p, m.s, m.procs[l.p].at, l.i, l.at);
    if q == l.p {
      ExecPc(m, l, n);
    } else {
      assert PairOk(m, l.p, q) && PairOk(m, q, l.p);
      var x := m.procs[q].at;
      if x.Undo? || x.UndoWake? {
        LockHolder(m, q);
        HolderIs(m, l.p);
      }
      OtherKept(l.p, m.s, m.procs[l.p].at, l.i, l.at, x);
    }
  }

  lemma HolderIs(m: Machine<Dk, Ctl>, p: nat)
    requires Inv(Ready, m) && p < |m.procs|
    ensures m.procs[p].pc.In? ==> m.lk == By(p)
  {
    assert Good(Ready, m, p);
  }

  lemma ExecPair(m: Machine<Dk, Ctl>, l: Label<Dk, Ctl>, n: Machine<Dk, Ctl>, q: nat, r: nat)
    requires Inv(Ready, m) && Ok(m) && Step(Ready, m, l, n) && Obeys(Prog, m, l) && l.Exec? && q < |m.procs| && r < |m.procs|
    ensures q < |n.procs| && r < |n.procs| && PairOk(n, q, r)
  {
    hide Inv, Prog, AtOk, PcOk, Step, Apart, SetsOk;
    ExecIs(m, l, n);
    assert PairOk(m, q, r);
    var x := if q == l.p then r else q;
    if (q == l.p || r == l.p) && q != r {
      assert PlaceOk(m, l.p) && PlaceOk(m, x) && PairOk(m, l.p, x) && PairOk(m, x, l.p);
      if m.procs[x].at.Undo? || m.procs[x].at.UndoWake? {
        LockHolder(m, x);
        HolderIs(m, l.p);
      }
      OtherKept(l.p, m.s, m.procs[l.p].at, l.i, l.at, m.procs[x].at);
    }
  }

  lemma ExecDesc(m: Machine<Dk, Ctl>, l: Label<Dk, Ctl>, n: Machine<Dk, Ctl>, d: nat)
    requires Ok(m) && Step(Ready, m, l, n) && Obeys(Prog, m, l) && l.Exec? && d < V.NUM
    ensures DescOk(n, d)
  {
    hide Prog, AtOk, PcOk, Step, SetsOk, Held;
    ExecIs(m, l, n);
    assert PlaceOk(m, l.p) && DescOk(m, d);
    OwnersKept(l.p, m.s, m.procs[l.p].at, l.i, l.at, d);
    if d in m.s.free || d in Held(m.procs[l.p].at) {
      assert d in n.s.free || d in Held(n.procs[l.p].at);
    } else {
      var q: nat :| q < |m.procs| && d in Held(m.procs[q].at);
      assert d in Held(n.procs[q].at);
    }
  }

  lemma ExecBusy(m: Machine<Dk, Ctl>, l: Label<Dk, Ctl>, n: Machine<Dk, Ctl>, b: nat)
    requires Ok(m) && Step(Ready, m, l, n) && Obeys(Prog, m, l) && l.Exec? && b in n.s.busy
    ensures BusyOk(n, b)
  {
    hide Prog, AtOk, PcOk, Step, SetsOk, Held;
    ExecIs(m, l, n);
    assert PlaceOk(m, l.p);
    OwnersKept(l.p, m.s, m.procs[l.p].at, l.i, l.at, 0);
    if b !in m.s.busy {
      assert n.procs[l.p].at.Wait? && n.procs[l.p].at.b == b;
    } else {
      assert BusyOk(m, b);
      var q: nat :| q < |m.procs| && m.procs[q].at.Wait? && m.procs[q].at.b == b;
      assert n.procs[q].at.Wait? && n.procs[q].at.b == b;
    }
  }

  lemma ElseOk(m: Machine<Dk, Ctl>, l: Label<Dk, Ctl>, n: Machine<Dk, Ctl>, q: nat)
    requires Ok(m) && Step(Ready, m, l, n) && !l.Exec? && q < |m.procs|
    ensures n.s == m.s && |n.procs| == |m.procs| && n.procs[q].at == m.procs[q].at && PcOk(n.procs[q].pc, n.procs[q].at)
  {
    hide Ready, ExecStep, AtOk;
    assert PlaceOk(m, l.p) && PlaceOk(m, q);
  }

  lemma StepOk(m: Machine<Dk, Ctl>, l: Label<Dk, Ctl>, n: Machine<Dk, Ctl>)
    requires Inv(Ready, m) && Ok(m) && Step(Ready, m, l, n) && Obeys(Prog, m, l)
    ensures Ok(n)
  {
    hide Step, Obeys, AtOk, PcOk, Inv, Apart, SetsOk, Held;
    SameProcs(Ready, m, l, n);
    if l.Exec? {
      ExecPlace(m, l, n, l.p);
      forall q: nat | q < |n.procs| ensures PlaceOk(n, q) { ExecPlace(m, l, n, q); }
      forall q: nat, r: nat | q < |n.procs| && r < |n.procs| ensures PairOk(n, q, r) { ExecPair(m, l, n, q, r); }
      forall d: nat | d < V.NUM ensures DescOk(n, d) { ExecDesc(m, l, n, d); }
      forall b | b in n.s.busy ensures BusyOk(n, b) { ExecBusy(m, l, n, b); }
    } else {
      ElseOk(m, l, n, l.p);
      forall q: nat | q < |n.procs| ensures PlaceOk(n, q) && n.procs[q].at == m.procs[q].at {
        ElseOk(m, l, n, q);
        assert PlaceOk(m, q);
      }
      forall q: nat, r: nat | q < |n.procs| && r < |n.procs| ensures PairOk(n, q, r) { assert PairOk(m, q, r); }
      forall d: nat | d < V.NUM ensures DescOk(n, d) { SameDesc(m, n, d); }
      forall b | b in n.s.busy ensures BusyOk(n, b) { SameBusy(m, n, b); }
    }
  }

  lemma SameDesc(m: Machine<Dk, Ctl>, n: Machine<Dk, Ctl>, d: nat)
    requires DescOk(m, d) && n.s == m.s && |n.procs| == |m.procs| && forall q: nat :: q < |n.procs| ==> n.procs[q].at == m.procs[q].at
    ensures DescOk(n, d)
  {
    hide Held;
    if d !in m.s.free {
      var q: nat :| q < |m.procs| && d in Held(m.procs[q].at);
      assert d in Held(n.procs[q].at);
    }
  }

  lemma SameBusy(m: Machine<Dk, Ctl>, n: Machine<Dk, Ctl>, b: nat)
    requires Ok(m) && b in m.s.busy && |n.procs| == |m.procs| && forall q: nat :: q < |n.procs| ==> n.procs[q].at == m.procs[q].at
    ensures BusyOk(n, b)
  {
    hide PlaceOk, PairOk, DescOk;
    assert BusyOk(m, b);
    var q: nat :| q < |m.procs| && m.procs[q].at.Wait? && m.procs[q].at.b == b;
    assert n.procs[q].at.Wait? && n.procs[q].at.b == b;
  }

  // ----- what runs keep -----

  /** In every interleaving no descriptor has two owners and no two processes use a buffer. */
  lemma {:induction false} DiskSafe(ms: seq<Machine<Dk, Ctl>>, ls: seq<Label<Dk, Ctl>>, k: nat)
    requires DiskRun(ms, ls) && k < |ms|
    ensures Ok(ms[k])
  {
    hide Step, Obeys, Ok, Inv;
    if k > 0 {
      DiskSafe(ms, ls, k - 1);
      assert Step(Ready, ms[k - 1], ls[k - 1], ms[k - 1 + 1]) && Obeys(Prog, ms[k - 1], ls[k - 1]);
      RunKeeps(Ready, Prog, Idle, ms, ls, k - 1);
      StepOk(ms[k - 1], ls[k - 1], ms[k]);
    } else {
      FirstOk(ms[0]);
    }
  }

  lemma FirstOk(m: Machine<Dk, Ctl>)
    requires Init(Idle, m) && m.s == Dk(AllDescs(), {}, {}, {})
    ensures Ok(m)
  {
    forall q: nat | q < |m.procs| ensures PlaceOk(m, q) {}
    forall q: nat, r: nat | q < |m.procs| && r < |m.procs| ensures PairOk(m, q, r) {}
  }

  /** free_desc() and the interrupt handler owe a wakeup between their update and their call of wakeup(). */
  ghost function Due(): Dues<Ctl> {
    Dues((at: Ctl) => if at.FreeWake? then iset{FREE} else if at.IntrWake? then iset{Chan(at.b)} else iset{}, (at: Ctl) => iset{})
  }

  /** Who sleeps for descriptors has found fewer than three, also after giving back what it had. */
  lemma PaysItsDebts(m: Machine<Dk, Ctl>, l: Label<Dk, Ctl>)
    requires Ok(m) && Obeys(Prog, m, l)
    ensures HonestStep(Ready, Due(), m, l)
  {
    if l.Exec? {
      assert PlaceOk(m, l.p);
      HonestHere(l.p, m.s, m.procs[l.p].at, l.i, l.at);
    }
  }

  lemma HonestHere(p: nat, s: Dk, at: Ctl, i: Instr<Dk>, next: Ctl)
    requires AtOk(s, at) && SetsOk(s) && Prog(p, at, s, i, next)
    ensures Honest(Ready, Due(), s, at, i, next)
  {
    if Giving(s, at) { FewerFree(p, s, at, i, next); }
  }

  /** Giving back what was taken for a request that did not get three makes nobody ready. */
  lemma FewerFree(p: nat, s: Dk, at: Ctl, i: Instr<Dk>, next: Ctl)
    requires AtOk(s, at) && SetsOk(s) && Prog(p, at, s, i, next) && Giving(s, at)
    ensures i.Update? && forall c: nat :: Ready(c, i.t) && !Ready(c, s) ==> c == FREE && next.FreeWake?
  {
    GiveOk(p, s, at, i, next);
  }

  /**
    No lost wakeup: when disk.vdisk_lock is free, a process that sleeps for descriptors faces fewer
    than three free ones, and one that sleeps for its buffer has a request the interrupt handler
    has not seen.
  */
  lemma SleepersMustWait(ms: seq<Machine<Dk, Ctl>>, ls: seq<Label<Dk, Ctl>>, k: nat, q: nat)
    requires DiskRun(ms, ls) && k < |ms| && ms[k].lk == Nobody && q < |ms[k].procs| && ms[k].procs[q].state == Sleeping
    ensures var at := ms[k].procs[q].at;
            if at.Try? then |ms[k].s.free| < 3 else at.Wait? && at.b in ms[k].s.busy
  {
    hide Step, Obeys, HonestStep, Inv;
    DiskSafe(ms, ls, k);
    forall i | 0 <= i < k ensures HonestStep(Ready, Due(), ms[i], ls[i]) {
      DiskSafe(ms, ls, i);
      assert Obeys(Prog, ms[i], ls[i]);
      PaysItsDebts(ms[i], ls[i]);
    }
    NoLostWakeup(Ready, Prog, Idle, Due(), ms, ls, k, q);
    RunKeeps(Ready, Prog, Idle, ms, ls, k);
    SleepsWhere(ms[k], q);
  }

  lemma SleepsWhere(m: Machine<Dk, Ctl>, q: nat)
    requires Inv(Ready, m) && Ok(m) && q < |m.procs| && m.procs[q].state == Sleeping
    ensures var me := m.procs[q];
            (me.at.Try? && me.chan == FREE) || (me.at.Wait? && me.chan == Chan(me.at.b))
  {
    assert Good(Ready, m, q) && PlaceOk(m, q);
  }

  /**
    Nobody waits for descriptors in vain: when disk.vdisk_lock is free and a process sleeps for them,
    another process has a request, and its buffer is with the device or not yet seen by the
    interrupt handler, or it is awake and will free its descriptors.
  */
  lemma SomeoneWillFree(ms: seq<Machine<Dk, Ctl>>, ls: seq<Label<Dk, Ctl>>, k: nat, q: nat) returns (r: nat)
    requires DiskRun(ms, ls) && k < |ms| && ms[k].lk == Nobody && q < |ms[k].procs| && ms[k].procs[q].state == Sleeping
    requires ms[k].procs[q].at.Try?
    ensures r < |ms[k].procs| && r != q && ms[k].procs[r].at.Wait?
    ensures ms[k].procs[r].state == Sleeping ==> ms[k].procs[r].at.b in ms[k].s.busy
  {
    hide Step, Obeys, Run, Inv, Ok;
    SleepersMustWait(ms, ls, k, q);
    DiskSafe(ms, ls, k);
    assert Run(Ready, Prog, Idle, ms, ls);
    RunKeeps(Ready, Prog, Idle, ms, ls, k);
    r := OwnerWaits(ms[k]);
    if ms[k].procs[r].state == Sleeping { SleepersMustWait(ms, ls, k, r); }
  }

  /** With the lock free, a descriptor that is not free belongs to a process that waits for the device. */
  lemma OwnerWaits(m: Machine<Dk, Ctl>) returns (r: nat)
    requires Inv(Ready, m) && Ok(m) && m.lk == Nobody && |m.s.free| < 3
    ensures r < |m.procs| && m.procs[r].at.Wait?
  {
    var d := NotFree(m.s.free);
    assert DescOk(m, d);
    r :| r < |m.procs| && d in Held(m.procs[r].at);
    assert Good(Ready, m, r) && PlaceOk(m, r);
  }

  lemma NotFree(s: set<nat>) returns (d: nat)
    requires |s| < 3
    ensures d < V.NUM && d !in s
  {
    var three: set<nat> := {0, 1, 2};
    assert three <= s ==> s == three + (s - three);
    assert !(three <= s);
    d :| d in three && d !in s;
  }

  // ----- a request from submission to return -----

  /** Step l of process p submits a request for buffer b with the descriptors ds. */
  ghost predicate Submits(m: Machine<Dk, Ctl>, l: Label<Dk, Ctl>, n: Machine<Dk, Ctl>, p: nat, b: nat, ds: seq<nat>) {
    && l.Exec? && l.p == p && p < |m.procs| && l.at == Wait(b, ds) && m.procs[p].at == Try(b, ds)
    && |ds| == 3 && Distinct(ds) && b !in m.s.busy && n.s == m.s.(busy := m.s.busy + {b})
  }

  /** Step l is the interrupt handler taking buffer b, which the device has finished, and nothing else. */
  ghost predicate Handles(m: Machine<Dk, Ctl>, l: Label<Dk, Ctl>, n: Machine<Dk, Ctl>, b: nat) {
    && l.Exec? && l.p < |m.procs| && m.procs[l.p].at == Intr && l.at == IntrWake(b) && b in m.s.done
    && n.s == m.s.(busy := m.s.busy - {b}, done := m.s.done - {b})
  }

  /** Who is at Wait has just submitted or was there; and only the handler makes a buffer not busy. */
  lemma WaitStep(m: Machine<Dk, Ctl>, l: Label<Dk, Ctl>, n: Machine<Dk, Ctl>, p: nat, b: nat, ds: seq<nat>)
    requires Ok(m) && Step(Ready, m, l, n) && Obeys(Prog, m, l) && p < |m.procs| && p < |n.procs| && n.procs[p].at == Wait(b, ds)
    ensures Submits(m, l, n, p, b, ds) || m.procs[p].at == Wait(b, ds)
    ensures b in m.s.busy && b !in n.s.busy ==> Handles(m, l, n, b)
    ensures Submits(m, l, n, p, b, ds) ==> b in n.s.busy
  {
    hide Ready;
    assert PlaceOk(m, p);
    if l.Exec? {
      hide ExecStep, Step;
      ExecIs(m, l, n);
      if l.p == p { WaitAfter(p, m.s, m.procs[p].at, l.i, b, ds); }
      BusyLeaves(l.p, m.s, m.procs[l.p].at, l.i, l.at);
    }
  }

  lemma WaitAfter(p: nat, s: Dk, at: Ctl, i: Instr<Dk>, b: nat, ds: seq<nat>)
    requires AtOk(s, at) && Prog(p, at, s, i, Wait(b, ds))
    ensures at == Wait(b, ds) || (at == Try(b, ds) && |ds| == 3 && Distinct(ds) && b !in s.busy && After(s, i) == s.(busy := s.busy + {b}))
  {
  }

  lemma BusyLeaves(p: nat, s: Dk, at: Ctl, i: Instr<Dk>, next: Ctl)
    requires Prog(p, at, s, i, next)
    ensures forall b :: b in s.busy && b !in After(s, i).busy ==>
              at == Intr && next == IntrWake(b) && b in s.done && After(s, i) == s.(busy := s.busy - {b}, done := s.done - {b})
  {
  }

  /** From state i + 1 up to state k process p was at Wait(b, ds). */
  ghost predicate WaitsSince(ms: seq<Machine<Dk, Ctl>>, i: nat, k: nat, p: nat, b: nat, ds: seq<nat>) {
    i < k < |ms| && forall j :: i < j <= k ==> p < |ms[j].procs| && ms[j].procs[p].at == Wait(b, ds)
  }

  lemma {:induction false} WaitHistory(ms: seq<Machine<Dk, Ctl>>, ls: seq<Label<Dk, Ctl>>, k: nat, p: nat, b: nat, ds: seq<nat>)
    returns (i: nat, j: nat)
    requires DiskRun(ms, ls) && k < |ms| && p < |ms[k].procs| && ms[k].procs[p].at == Wait(b, ds)
    ensures WaitsSince(ms, i, k, p, b, ds) && i < |ls| && Submits(ms[i], ls[i], ms[i + 1], p, b, ds)
    ensures b in ms[k].s.busy || (i < j < k && Handles(ms[j], ls[j], ms[j + 1], b))
  {
    hide Step, Obeys, Ok, Submits, Handles;
    i, j := 0, 0;
    if k > 0 {
      DiskSafe(ms, ls, k - 1);
      assert Step(Ready, ms[k - 1], ls[k - 1], ms[k - 1 + 1]) && Obeys(Prog, ms[k - 1], ls[k - 1]);
      SameProcs(Ready, ms[k - 1], ls[k - 1], ms[k]);
      WaitStep(ms[k - 1], ls[k - 1], ms[k], p, b, ds);
      if Submits(ms[k - 1], ls[k - 1], ms[k], p, b, ds) {
        i := k - 1;
      } else {
        i, j := WaitHistory(ms, ls, k - 1, p, b, ds);
        if b in ms[k - 1].s.busy && b !in ms[k].s.busy { j := k - 1; }
      }
    }
  }

  /**
    virtio_disk_rw() goes on from its wait only after its own request is done: since it submitted the
    request, with three different descriptors, the interrupt handler has taken its buffer, which the
    device had finished. Then it frees the first of these descriptors.
  */
  lemma ReturnsWhenDone(ms: seq<Machine<Dk, Ctl>>, ls: seq<Label<Dk, Ctl>>, k: nat) returns (i: nat, j: nat)
    requires DiskRun(ms, ls) && k < |ls| && ls[k].Exec? && ls[k].p < |ms[k].procs|
    requires ms[k].procs[ls[k].p].at.Wait? && ls[k].at != ms[k].procs[ls[k].p].at
    ensures var p, b, ds := ls[k].p, ms[k].procs[ls[k].p].at.b, ms[k].procs[ls[k].p].at.ds;
            && i < j < k && WaitsSince(ms, i, k, p, b, ds) && Submits(ms[i], ls[i], ms[i + 1], p, b, ds)
            && Handles(ms[j], ls[j], ms[j + 1], b)
            && |ds| == 3 && ms[k + 1].s.free == ms[k].s.free + {ds[0]} && ls[k].at == FreeWake(b, ds[1..])
  {
    hide Step, Obeys, Ok, Handles, Submits;
    var p := ls[k].p;
    var at := ms[k].procs[p].at;
    i, j := WaitHistory(ms, ls, k, p, at.b, at.ds);
    DiskSafe(ms, ls, k);
    assert Step(Ready, ms[k], ls[k], ms[k + 1]) && Obeys(Prog, ms[k], ls[k]);
    ExecIs(ms[k], ls[k], ms[k + 1]);
    InOrder(ms[k], p);
  }

  lemma InOrder(m: Machine<Dk, Ctl>, p: nat)
    requires Ok(m) && p < |m.procs|
    ensures AtOk(m.s, m.procs[p].at)
  {
    assert PlaceOk(m, p);
  }

  /**
    alloc3_desc() takes the lowest free descriptors, and if it finds no third one gives back what it
    has, so that it sleeps with the descriptors as it found them.
  */
  lemma AllocExactly(ms: seq<Machine<Dk, Ctl>>, ls: seq<Label<Dk, Ctl>>, k: nat)
    requires DiskRun(ms, ls) && k < |ls| && ls[k].Exec? && ls[k].p < |ms[k].procs|
    ensures var at, next, s, t := ms[k].procs[ls[k].p].at, ls[k].at, ms[k].s, ms[k + 1].s;
            && (at.Try? && |at.ds| < 3 && s.free != {} ==>
                  exists d: nat :: d in s.free && (forall e :: e in s.free ==> d <= e)
                                   && t == s.(free := s.free - {d}) && next == Try(at.b, at.ds + [d]))
            && (at.Try? && 0 < |at.ds| < 3 && s.free == {} ==> t == s.(free := {at.ds[0]}) && next == UndoWake(at.b, at.ds[1..]))
            && ((at.Try? && at.ds == [] && s.free == {}) || (at.Undo? && at.ds == []) ==>
                  t == s && ls[k].i == SleepOn(FREE) && |s.free| < 3)
            && ((at.Undo? || at.Freeing?) && at.ds != [] ==> t == s.(free := s.free + {at.ds[0]}))
  {
    hide Step, Obeys, Ok;
    DiskSafe(ms, ls, k);
    assert Step(Ready, ms[k], ls[k], ms[k + 1]) && Obeys(Prog, ms[k], ls[k]);
    ExecIs(ms[k], ls[k], ms[k + 1]);
    InOrder(ms[k], ls[k].p);
  }

  /** The process that holds disk.vdisk_lock, unless it is in sleep() or wakeup(), has an instruction to execute. */
  lemma HolderGoesOn(ms: seq<Machine<Dk, Ctl>>, ls: seq<Label<Dk, Ctl>>, k: nat, p: nat)
    returns (l: Label<Dk, Ctl>, n: Machine<Dk, Ctl>)
    requires DiskRun(ms, ls) && k < |ms| && p < |ms[k].procs| && ms[k].procs[p].pc.In?
    ensures l.p == p && DiskRun(ms[..k + 1] + [n], ls[..k] + [l])
  {
    hide Step, Obeys, Init, Ok;
    DiskSafe(ms, ls, k);
    var m := ms[k];
    InPlace(m, p);
    var i, next := NextOf(p, m.s, m.procs[p].at);
    n := CanExecute(Ready, Prog, m, p, i, next);
    l := Exec(p, i, next);
    RunPrefix(Ready, Prog, Idle, ms, ls, k);
    RunMore(Ready, Prog, Idle, ms[..k + 1], ls[..k], l, n);
  }

  lemma InPlace(m: Machine<Dk, Ctl>, p: nat)
    requires Ok(m) && p < |m.procs| && m.procs[p].pc.In?
    ensures AtOk(m.s, m.procs[p].at) && !m.procs[p].at.Idle? && !m.procs[p].at.Has?
  {
    assert PlaceOk(m, p);
  }

  lemma NextOf(p: nat, s: Dk, at: Ctl) returns (i: Instr<Dk>, next: Ctl)
    requires AtOk(s, at) && !at.Idle? && !at.Has?
    ensures Prog(p, at, s, i, next) && !i.Lock? && !i.Bypass?
  {
    i, next := Unlock, Idle;
    match at {
      case Try(b, ds) =>
        if |ds| >= 3 {
          i, next := Update(s.(busy := s.busy + {b})), Wait(b, ds);
        } else if s.free != {} {
          var d := LowestOf(s.free);
          i, next := Update(s.(free := s.free - {d})), Try(b, ds + [d]);
        } else if ds == [] {
          i, next := SleepOn(FREE), Try(b, []);
        } else {
          i, next := Update(s.(free := s.free + {ds[0]})), UndoWake(b, ds[1..]);
        }
      case UndoWake(b, ds) => i, next := WakeUp(FREE), Undo(b, ds);
      case Undo(b, ds) =>
        if ds == [] { i, next := SleepOn(FREE), Try(b, []); }
        else { i, next := Update(s.(free := s.free + {ds[0]})), UndoWake(b, ds[1..]); }
      case Wait(b, ds) =>
        if b in s.busy { i, next := SleepOn(Chan(b)), Wait(b, ds); }
        else { i, next := Update(s.(free := s.free + {ds[0]})), FreeWake(b, ds[1..]); }
      case FreeWake(b, ds) => i, next := WakeUp(FREE), Freeing(b, ds);
      case Freeing(b, ds) =>
        if ds == [] { next := Has(b); }
        else { i, next := Update(s.(free := s.free + {ds[0]})), FreeWake(b, ds[1..]); }
      case Intr =>
        if s.done != {} {
          var b :| b in s.done;
          i, next := Update(s.(busy := s.busy - {b}, done := s.done - {b})), IntrWake(b);
        }
      case IntrWake(b) => i, next := WakeUp(Chan(b)), Intr;
    }
  }

  lemma {:induction false} LowestOf(s: set<nat>) returns (d: nat)
    requires s != {}
    ensures Lowest(s, d)
    decreases |s|
  {
    d :| d in s;
    if s != {d} {
      var e := LowestOf(s - {d});
      assert forall x :: x in s ==> x == d || x in s - {d};
      if e < d { d := e; }
    }
  }
}
