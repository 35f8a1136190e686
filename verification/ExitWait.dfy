/**
  fork(), exit(), wait() and reparent() (kernel/proc.c): the process tree, protected by
  wait_lock, as a client of sleep() and wakeup(). Process q sleeps in wait() on its own slot.
*/
module ExitWait {
  import opened SleepWakeup

  datatype Kind = Unused | Embryo | Live | Zombie

  /** A slot of the process table; parent is a slot number or -1. */
  datatype Slot = Slot(kind: Kind, pid: nat, parent: int)

  /** What a process is in the middle of. */
  datatype Doing = Nothing | Forking(child: nat) | Exiting

  /** The table, and the pids that wait() has returned. */
  datatype Table = Table(slots: seq<Slot>, doing: seq<Doing>, nextpid: nat, init: nat, reaped: seq<nat>)

  datatype Act =
    | Alloc(i: nat)                 // allocproc() in fork(): under p->lock of the slot only
    | Abort                         // fork() out of memory: freeproc()
    | Adopt                         // np->parent = p, under wait_lock
    | Start                         // np->state = RUNNABLE
    | BeginExit                     // exit() has wait_lock
    | Reparent(j: nat)              // pp->parent = initproc
    | Die                           // p->state = ZOMBIE
    | Reap(i: nat)                  // wait() frees a zombie child

  /** The acts that need not hold wait_lock. */
  predicate Lockless(a: Act) { a.Alloc? || a.Abort? || a.Start? }

  predicate HasChild(s: Table, p: nat, i: nat) { i < |s.slots| && s.slots[i].parent == p }

  predicate IsLive(s: Table, p: nat) { p < |s.slots| && p < |s.doing| && s.slots[p].kind == Live }

  predicate Enabled(s: Table, p: nat, a: Act) {
    && IsLive(s, p)
    && match a
       case Alloc(i) => s.doing[p] == Nothing && i < |s.slots| && s.slots[i].kind == Unused
       case Abort => s.doing[p].Forking? && s.doing[p].child < |s.slots| && s.slots[s.doing[p].child].parent == -1
       case Adopt => s.doing[p].Forking? && s.doing[p].child < |s.slots|
       case Start => s.doing[p].Forking? && HasChild(s, p, s.doing[p].child)
       case BeginExit => s.doing[p] == Nothing && p != s.init
       case Reparent(j) => s.doing[p] == Exiting && HasChild(s, p, j)
       case Die => s.doing[p] == Exiting && forall i :: 0 <= i < |s.slots| ==> !HasChild(s, p, i)
       case Reap(i) => s.doing[p] == Nothing && HasChild(s, p, i) && s.slots[i].kind == Zombie
  }

  function SetSlot(s: Table, i: nat, x: Slot): Table
    requires i < |s.slots|
  {
    s.(slots := s.slots[i := x])
  }

  function Apply(s: Table, p: nat, a: Act): Table
    requires Enabled(s, p, a)
  {
    match a
    case Alloc(i) =>
      SetSlot(s, i, Slot(Embryo, s.nextpid, -1)).(nextpid := s.nextpid + 1, doing := s.doing[p := Forking(i)])
    case Abort => SetSlot(s, s.doing[p].child, Slot(Unused, 0, -1)).(doing := s.doing[p := Nothing])
    case Adopt => SetSlot(s, s.doing[p].child, s.slots[s.doing[p].child].(parent := p))
    case Start =>
      SetSlot(s, s.doing[p].child, s.slots[s.doing[p].child].(kind := Live)).(doing := s.doing[p := Nothing])
    case BeginExit => s.(doing := s.doing[p := Exiting])
    case Reparent(j) => SetSlot(s, j, s.slots[j].(parent := s.init))
    case Die => SetSlot(s, p, s.slots[p].(kind := Zombie)).(doing := s.doing[p := Nothing])
    case Reap(i) => SetSlot(s, i, Slot(Unused, 0, -1)).(reaped := s.reaped + [s.slots[i].pid])
  }

  // ----- the invariant of the tree -----

  ghost predicate SlotOk(s: Table, i: nat)
    requires i < |s.slots| && s.init < |s.slots|
  {
    var x := s.slots[i];
    && (x.kind == Unused ==> x.parent == -1)
    && (x.kind != Unused ==> 0 < x.pid < s.nextpid && x.pid !in s.reaped)
    && (x.kind != Unused && i != s.init ==> s.slots[s.init].pid < x.pid)
    && (x.kind == Live || x.kind == Zombie ==> i == s.init || x.parent >= 0)
    && -1 <= x.parent < |s.slots|
    && (x.parent >= 0 ==> i != s.init && s.slots[x.parent].kind == Live && s.slots[x.parent].pid < x.pid)
  }

  ghost predicate DoingOk(s: Table, p: nat)
    requires p < |s.doing| && |s.doing| == |s.slots|
  {
    match s.doing[p]
    case Nothing => true
    case Exiting => s.slots[p].kind == Live && p != s.init
    case Forking(i) =>
      && s.slots[p].kind == Live && i < |s.slots| && s.slots[i].kind == Embryo && i != s.init
      && (s.slots[i].parent == -1 || s.slots[i].parent == p) && s.slots[p].pid < s.slots[i].pid
  }

  ghost predicate Apart(s: Table, i: nat, j: nat)
    requires i < |s.slots| && j < |s.slots| && |s.doing| == |s.slots|
  {
    && (i != j && s.slots[i].kind != Unused && s.slots[j].kind != Unused ==> s.slots[i].pid != s.slots[j].pid)
    && (i != j && s.doing[i].Forking? && s.doing[j].Forking? ==> s.doing[i].child != s.doing[j].child)
  }

  ghost predicate TreeOk(s: Table) {
    && |s.doing| == |s.slots| && s.init < |s.slots| && s.slots[s.init].kind == Live
    && (forall i: nat {:trigger SlotOk(s, i)} :: i < |s.slots| ==> SlotOk(s, i))
    && (forall p: nat {:trigger DoingOk(s, p)} :: p < |s.doing| ==> DoingOk(s, p))
    && (forall i: nat, j: nat {:trigger Apart(s, i, j)} :: i < |s.slots| && j < |s.slots| ==> Apart(s, i, j))
    && (forall k :: 0 <= k < |s.reaped| ==> s.reaped[k] < s.nextpid)
    && (forall k, l :: 0 <= k < l < |s.reaped| ==> s.reaped[k] != s.reaped[l])
  }

  predicate ForkAct(a: Act) { a.Alloc? || a.Abort? || a.Adopt? || a.Start? }

  lemma ForkSlots(s: Table, p: nat, a: Act, i: nat)
    requires TreeOk(s) && Enabled(s, p, a) && i < |s.slots| && ForkAct(a)
    ensures var t := Apply(s, p, a); |t.slots| == |s.slots| && t.init == s.init && SlotOk(t, i)
  {
    assert SlotOk(s, i) && SlotOk(s, p) && DoingOk(s, p) && SlotOk(s, s.init);
    if a.Alloc? { assert SlotOk(s, a.i); }
  }

  lemma ExitSlots(s: Table, p: nat, a: Act, i: nat)
    requires TreeOk(s) && Enabled(s, p, a) && i < |s.slots| && !ForkAct(a)
    ensures var t := Apply(s, p, a); |t.slots| == |s.slots| && t.init == s.init && SlotOk(t, i)
  {
    assert SlotOk(s, i) && SlotOk(s, p) && DoingOk(s, p) && SlotOk(s, s.init);
    if a.Reap? { assert Apart(s, i, a.i) && SlotOk(s, a.i); }
    if a.Die? { assert !HasChild(s, p, i); }
  }

  lemma ActDoing(s: Table, p: nat, a: Act, q: nat)
    requires TreeOk(s) && Enabled(s, p, a) && q < |s.slots|
    ensures var t := Apply(s, p, a); |t.slots| == |s.slots| && |t.doing| == |t.slots| && t.init == s.init && DoingOk(t, q)
  {
    assert DoingOk(s, q) && DoingOk(s, p) && SlotOk(s, p) && SlotOk(s, q) && Apart(s, q, p);
  }

  lemma ActApart(s: Table, p: nat, a: Act, i: nat, j: nat)
    requires TreeOk(s) && Enabled(s, p, a) && i < |s.slots| && j < |s.slots|
    ensures var t := Apply(s, p, a); |t.slots| == |s.slots| && |t.doing| == |t.slots| && Apart(t, i, j)
  {
    assert Apart(s, i, j) && DoingOk(s, i) && DoingOk(s, j) && SlotOk(s, i) && SlotOk(s, j) && DoingOk(s, p);
  }

  lemma ActReaped(s: Table, p: nat, a: Act)
    requires TreeOk(s) && Enabled(s, p, a)
    ensures var t := Apply(s, p, a);
            && (forall k :: 0 <= k < |t.reaped| ==> t.reaped[k] < t.nextpid)
            && (forall k, l :: 0 <= k < l < |t.reaped| ==> t.reaped[k] != t.reaped[l])
            && t.slots[t.init].kind == Live && s.nextpid <= t.nextpid && s.reaped <= t.reaped
  {
    if a.Reap? { assert SlotOk(s, a.i); }
    assert DoingOk(s, p) && SlotOk(s, p) && SlotOk(s, s.init);
  }

  /** Every act keeps the tree in order. */
  lemma ActKeeps(s: Table, p: nat, a: Act)
    requires TreeOk(s) && Enabled(s, p, a)
    ensures TreeOk(Apply(s, p, a))
  {
    hide Enabled, Apply, SlotOk, DoingOk, Apart;
    var t := Apply(s, p, a);
    ActReaped(s, p, a);
    ActDoing(s, p, a, s.init);
    forall i: nat | i < |t.slots| ensures SlotOk(t, i) {
      if ForkAct(a) { ForkSlots(s, p, a, i); } else { ExitSlots(s, p, a, i); }
    }
    forall q: nat | q < |t.slots| ensures DoingOk(t, q) { ActDoing(s, p, a, q); }
    forall i: nat, j: nat | i < |t.slots| && j < |t.slots| ensures Apart(t, i, j) { ActApart(s, p, a, i, j); }
  }

  // ----- ancestors -----

  /** The n-th ancestor of slot i; past the root it stays there. */
  ghost function Ancestor(s: Table, i: nat, n: nat): (r: nat)
    requires TreeOk(s) && i < |s.slots|
    ensures r < |s.slots|
  {
    if n == 0 then i
    else
      var a := Ancestor(s, i, n - 1);
      assert SlotOk(s, a);
      if s.slots[a].parent >= 0 then s.slots[a].parent else a
  }

  /** Following parents strictly decreases the pid, down to init. */
  lemma {:induction false} ReachesInit(s: Table, i: nat) returns (n: nat)
    requires TreeOk(s) && i < |s.slots| && (s.slots[i].kind == Live || s.slots[i].kind == Zombie)
    ensures Ancestor(s, i, n) == s.init && n < s.slots[i].pid
    ensures i != s.init ==> 0 <= s.slots[i].parent < |s.slots| && s.slots[s.slots[i].parent].pid < s.slots[i].pid
    decreases s.slots[i].pid
  {
    assert SlotOk(s, i);
    if i == s.init {
      n := 0;
    } else {
      var m := ReachesInit(s, s.slots[i].parent);
      AncestorOf(s, i, m);
      n := m + 1;
    }
  }

  lemma {:induction false} AncestorOf(s: Table, i: nat, n: nat)
    requires TreeOk(s) && i < |s.slots| && s.slots[i].parent >= 0
    ensures s.slots[i].parent < |s.slots| && Ancestor(s, i, n + 1) == Ancestor(s, s.slots[i].parent, n)
  {
    assert SlotOk(s, i);
    if n > 0 { AncestorOf(s, i, n - 1); }
  }

  // ----- waiting -----

  /** Slot q waits on channel q + 1 for a zombie child. */
  ghost predicate Ready(c: nat, s: Table) {
    c > 0 && exists i: nat :: HasChild(s, c - 1, i) && s.slots[i].kind == Zombie
  }

  /** Acts without wait_lock make nobody's child a zombie. */
  lemma LocklessSilent(s: Table, p: nat, a: Act)
    requires TreeOk(s) && Enabled(s, p, a) && Lockless(a)
    ensures forall c: nat :: Ready(c, Apply(s, p, a)) == Ready(c, s)
  {
    var t := Apply(s, p, a);
    assert DoingOk(s, p);
    forall c: nat ensures Ready(c, t) == Ready(c, s) {
      if Ready(c, t) {
        var i: nat :| HasChild(t, c - 1, i) && t.slots[i].kind == Zombie;
        assert HasChild(s, c - 1, i);
      }
      if Ready(c, s) {
        var i: nat :| HasChild(s, c - 1, i) && s.slots[i].kind == Zombie;
        assert HasChild(t, c - 1, i);
      }
    }
  }

  /** Only two acts give a process a zombie child: passing one to init, and dying. */
  lemma NewlyReady(s: Table, p: nat, a: Act, c: nat)
    requires TreeOk(s) && Enabled(s, p, a) && Ready(c, Apply(s, p, a)) && !Ready(c, s)
    ensures (a.Reparent? && c == s.init + 1) || (a.Die? && c == s.slots[p].parent + 1)
  {
    var t := Apply(s, p, a);
    assert DoingOk(s, p);
    var i: nat :| HasChild(t, c - 1, i) && t.slots[i].kind == Zombie;
    assert HasChild(s, c - 1, i) ==> s.slots[i].kind != Zombie;
  }

  // ----- the code -----

  type TreeMachine = Machine<Table, Ctl>
  type TreeLabel = Label<Table, Ctl>

  /** Where the process in a slot is in fork(), exit() and wait(). */
  datatype Ctl =
    | Dormant                       // there is no running process in the slot
    | User                          // in none of the functions
    | Forked                        // fork() has a slot for the child
    | Adopting                      // fork() has wait_lock
    | Adopted                       // the child has its parent
    | Starting                      // fork() has released wait_lock
    | Leaving                       // exit() has wait_lock
    | Giving(j: nat)                // in the loop of reparent()
    | Gave(j: nat, c: nat)          // slot j given to init, about to call wakeup(c)
    | Notified(c: nat)              // exit() has called wakeup(c) for the parent
    | Dead                          // about to release wait_lock for good
    | Scanning(j: nat, kids: bool)  // in the loop of wait()
    | Done                          // about to leave wait()

  predicate Makes(p: nat, s: Table, a: Act, t: Table) { Enabled(s, p, a) && t == Apply(s, p, a) }

  /**
    The three functions, for a process in slot p. A process can find itself killed in wait(), and
    the copy of the exit status can fail.
  */
  ghost predicate Prog(p: nat, at: Ctl, s: Table, i: Instr<Table>, next: Ctl) {
    match at
    case Dormant => IsLive(s, p) && i == Bypass(s) && next == User
    case User =>
      || (i == Lock && (next == Scanning(0, false) || (next == Leaving && p != s.init)))
      || (i.Bypass? && next == Forked && exists j :: Makes(p, s, Alloc(j), i.t))
    case Forked => (i.Bypass? && Makes(p, s, Abort, i.t) && next == User) || (i == Lock && next == Adopting)
    case Adopting => i.Update? && Makes(p, s, Adopt, i.t) && next == Adopted
    case Adopted => i == Unlock && next == Starting
    case Starting => i.Bypass? && Makes(p, s, Start, i.t) && next == User
    case Leaving => i.Update? && Makes(p, s, BeginExit, i.t) && next == Giving(0)
    case Giving(j) =>
      if j >= |s.slots| then p < |s.slots| && s.slots[p].parent >= 0 && i == WakeUp(s.slots[p].parent + 1) && next == Notified(i.c)
      else if s.slots[j].parent == p then i.Update? && Makes(p, s, Reparent(j), i.t) && next == Gave(j, s.init + 1)
      else i == Update(s) && next == Giving(j + 1)
    case Gave(j, c) => i == WakeUp(c) && next == Giving(j + 1)
    case Notified(_) => i.Update? && Makes(p, s, Die, i.t) && next == Dead
    case Dead => i == Unlock && next == Dormant
    case Scanning(j, kids) =>
      if j >= |s.slots| then (i == Unlock && next == User) || (kids && i == SleepOn(p + 1) && next == Scanning(0, false))
      else if s.slots[j].parent != p then i == Update(s) && next == Scanning(j + 1, kids)
      else if s.slots[j].kind != Zombie then i == Update(s) && next == Scanning(j + 1, true)
      else i.Update? && next == Done && (i.t == s || Makes(p, s, Reap(j), i.t))
    case Done => i == Unlock && next == User
  }

  ghost predicate TreeRun(ms: seq<TreeMachine>, ls: seq<TreeLabel>) {
    && Run(Ready, Prog, Dormant, ms, ls) && TreeOk(ms[0].s) && |ms[0].s.slots| == |ms[0].procs|
    && forall q :: 0 <= q < |ms[0].s.doing| ==> ms[0].s.doing[q] == Nothing
  }

  /** No child of p has a number below j. */
  ghost predicate GivenBelow(s: Table, p: nat, j: nat) { forall i: nat :: i < j ==> !HasChild(s, p, i) }

  /** No child of p with a number below j is a zombie. */
  ghost predicate NoZombieBelow(s: Table, p: nat, j: nat) {
    forall i: nat :: i < j && HasChild(s, p, i) ==> s.slots[i].kind != Zombie
  }

  ghost predicate ForkingOk(s: Table, q: nat, parent: int)
    requires q < |s.doing|
  {
    IsLive(s, q) && s.doing[q].Forking? && s.doing[q].child < |s.slots| && s.slots[s.doing[q].child].parent == parent
  }

  /** What the table says of slot q, as the place of its process in the code says. */
  ghost predicate TablePlace(s: Table, q: nat, at: Ctl)
    requires q < |s.slots| == |s.doing|
  {
    match at
    case Dormant => s.doing[q] == Nothing
    case User => IsLive(s, q) && s.doing[q] == Nothing
    case Forked => ForkingOk(s, q, -1)
    case Adopting => ForkingOk(s, q, -1)
    case Adopted => ForkingOk(s, q, q)
    case Starting => ForkingOk(s, q, q)
    case Leaving => IsLive(s, q) && s.doing[q] == Nothing && q != s.init
    case Giving(j) => IsLive(s, q) && s.doing[q] == Exiting && j <= |s.slots| && GivenBelow(s, q, j)
    case Gave(j, c) => IsLive(s, q) && s.doing[q] == Exiting && j < |s.slots| && GivenBelow(s, q, j + 1) && c == s.init + 1
    case Notified(c) => IsLive(s, q) && s.doing[q] == Exiting && GivenBelow(s, q, |s.slots|) && c == s.slots[q].parent + 1
    case Dead => s.doing[q] == Nothing
    case Scanning(j, _) => IsLive(s, q) && s.doing[q] == Nothing && j <= |s.slots| && NoZombieBelow(s, q, j)
    case Done => IsLive(s, q) && s.doing[q] == Nothing
  }

  predicate LockFree(at: Ctl) { at == Dormant || at == User || at == Forked || at == Starting }

  ghost predicate PlaceOk(m: TreeMachine, q: nat)
    requires q < |m.procs| == |m.s.slots| == |m.s.doing|
  {
    var me := m.procs[q];
    && TablePlace(m.s, q, me.at) && (me.pc.Out? <==> LockFree(me.at))
    && (Asleep(me.pc) ==> me.at == Scanning(0, false) && me.pc.c == q + 1)
    && (me.pc.Wake? || me.pc.WakeLocked? ==> me.at.Giving? || me.at.Notified?)
  }

  ghost predicate PlacesOk(m: TreeMachine) {
    && |m.procs| == |m.s.slots| == |m.s.doing|
    && forall q: nat {:trigger PlaceOk(m, q)} :: q < |m.procs| ==> PlaceOk(m, q)
  }

  /** What an instruction does to the table. */
  lemma ActIs(m: TreeMachine, l: TreeLabel) returns (same: bool, a: Act)
    requires Obeys(Prog, m, l) && l.Exec? && (l.i.Update? || l.i.Bypass?)
    ensures l.p < |m.procs| && (if same then l.i.t == m.s else Makes(l.p, m.s, a, l.i.t))
    ensures !same && l.i.Bypass? ==> Lockless(a)
    ensures !same && l.i.Update? && a.Reparent? ==> l.at == Gave(a.j, m.s.init + 1)
    ensures !same && l.i.Update? && a.Die? ==> m.procs[l.p].at.Notified?
  {
    same, a := false, Die;
    match m.procs[l.p].at
    case Dormant => same := true;
    case User => var j :| Makes(l.p, m.s, Alloc(j), l.i.t); a := Alloc(j);
    case Forked => a := Abort;
    case Adopting => a := Adopt;
    case Starting => a := Start;
    case Leaving => a := BeginExit;
    case Giving(j) => if m.s.slots[j].parent == l.p { a := Reparent(j); } else { same := true; }
    case Notified(_) =>
    case Scanning(j, _) => if l.i.t == m.s { same := true; } else { a := Reap(j); }
  }

  lemma StateFollows(m: TreeMachine, l: TreeLabel, n: TreeMachine)
    requires TreeOk(m.s) && Step(Ready, m, l, n) && Obeys(Prog, m, l)
    ensures TreeOk(n.s)
  {
    hide TreeOk, Enabled, Apply, Ready, Prog;
    if l.Exec? && (l.i.Update? || l.i.Bypass?) {
      var same, a := ActIs(m, l);
      if !same { ActKeeps(m.s, l.p, a); }
    }
  }

  /** An act of process p leaves alone what another process is doing, and its child if it forks. */
  lemma ActSpares(s: Table, p: nat, a: Act, q: nat)
    requires TreeOk(s) && Enabled(s, p, a) && q < |s.slots| && q != p
    ensures var t := Apply(s, p, a);
            && |t.slots| == |s.slots| == |t.doing| && t.init == s.init && t.doing[q] == s.doing[q]
            && (IsLive(s, q) ==> IsLive(t, q))
            && (s.doing[q].Forking? && s.doing[q].child < |s.slots| ==>
                  t.slots[s.doing[q].child].parent == s.slots[s.doing[q].child].parent)
  {
    assert DoingOk(s, p) && DoingOk(s, q) && SlotOk(s, p) && SlotOk(s, q) && Apart(s, p, q);
  }

  /** An act without wait_lock moves no slot to another parent and makes no zombie. */
  lemma LocklessSpares(s: Table, p: nat, a: Act, q: nat)
    requires TreeOk(s) && Enabled(s, p, a) && Lockless(a) && q < |s.slots| && q != p && IsLive(s, q)
    ensures var t := Apply(s, p, a);
            && |t.slots| == |s.slots| && t.slots[q].parent == s.slots[q].parent
            && forall i: nat :: HasChild(t, q, i) ==> HasChild(s, q, i) && (t.slots[i].kind == Zombie ==> s.slots[i].kind == Zombie)
  {
    assert DoingOk(s, p) && SlotOk(s, q);
  }

  lemma GaveOne(s: Table, p: nat, j: nat)
    requires TreeOk(s) && Enabled(s, p, Reparent(j)) && GivenBelow(s, p, j)
    ensures var t := Apply(s, p, Reparent(j)); GivenBelow(t, p, j + 1) && IsLive(t, p) && t.doing[p] == Exiting
  {
    assert DoingOk(s, p);
    var t := Apply(s, p, Reparent(j));
    forall i: nat | i < j + 1 ensures !HasChild(t, p, i) { assert i < j ==> !HasChild(s, p, i); }
  }

  /** The table after an instruction. */
  function After(s: Table, i: Instr<Table>): Table { if i.Update? || i.Bypass? then i.t else s }

  predicate InFork(at: Ctl) {
    at == Dormant || at == User || at == Forked || at == Adopting || at == Adopted || at == Starting
  }

  lemma ForkPlace(s: Table, p: nat, at: Ctl, i: Instr<Table>, next: Ctl)
    requires TreeOk(s) && p < |s.slots| && TablePlace(s, p, at) && Prog(p, at, s, i, next) && InFork(at)
    ensures |After(s, i).slots| == |After(s, i).doing| == |s.slots| && TablePlace(After(s, i), p, next)
  {
    hide SlotOk, Apart;
    assert DoingOk(s, p);
  }

  lemma ExitPlace(s: Table, p: nat, at: Ctl, i: Instr<Table>, next: Ctl)
    requires TreeOk(s) && p < |s.slots| && TablePlace(s, p, at) && Prog(p, at, s, i, next)
    requires at == Leaving || at.Giving? || at.Gave? || at.Notified? || at == Dead
    ensures |After(s, i).slots| == |After(s, i).doing| == |s.slots| && TablePlace(After(s, i), p, next)
  {
    hide SlotOk, Apart;
    assert DoingOk(s, p);
    if at.Giving? && at.j < |s.slots| && HasChild(s, p, at.j) { GaveOne(s, p, at.j); }
  }

  lemma WaitPlace(s: Table, p: nat, at: Ctl, i: Instr<Table>, next: Ctl)
    requires TreeOk(s) && p < |s.slots| && TablePlace(s, p, at) && Prog(p, at, s, i, next)
    requires at.Scanning? || at == Done
    ensures |After(s, i).slots| == |After(s, i).doing| == |s.slots| && TablePlace(After(s, i), p, next)
  {
    hide SlotOk, Apart, DoingOk;
  }

  lemma TableSelf(m: TreeMachine, l: TreeLabel, n: TreeMachine)
    requires TreeOk(m.s) && PlacesOk(m) && Step(Ready, m, l, n) && Obeys(Prog, m, l) && l.Exec?
    ensures |n.s.slots| == |n.s.doing| == |m.procs| && TablePlace(n.s, l.p, l.at)
  {
    hide TreeOk, Ready, TablePlace, Prog;
    assert PlaceOk(m, l.p) && n.s == After(m.s, l.i);
    var at := m.procs[l.p].at;
    if InFork(at) {
      ForkPlace(m.s, l.p, at, l.i, l.at);
    } else if at.Scanning? || at == Done {
      WaitPlace(m.s, l.p, at, l.i, l.at);
    } else {
      ExitPlace(m.s, l.p, at, l.i, l.at);
    }
  }

  lemma PlaceSelf(m: TreeMachine, l: TreeLabel, n: TreeMachine)
    requires TreeOk(m.s) && PlacesOk(m) && Step(Ready, m, l, n) && Obeys(Prog, m, l) && l.Exec?
    ensures |n.procs| == |n.s.slots| == |n.s.doing| && PlaceOk(n, l.p)
  {
    hide TreeOk, Ready, TablePlace, Makes;
    TableSelf(m, l, n);
    assert PlaceOk(m, l.p);
  }

  lemma TableOther(m: TreeMachine, l: TreeLabel, n: TreeMachine, q: nat)
    requires TreeOk(m.s) && PlacesOk(m) && Inv(Ready, m) && Step(Ready, m, l, n) && Obeys(Prog, m, l) && l.Exec?
    requires q < |m.procs| && q != l.p
    ensures |n.s.slots| == |n.s.doing| == |m.procs| && TablePlace(n.s, q, m.procs[q].at)
  {
    hide TreeOk, Ready, Prog, Enabled, Apply, WaitOk, StateOk;
    assert PlaceOk(m, q) && Good(Ready, m, q) && Good(Ready, m, l.p);
    if l.i.Update? || l.i.Bypass? {
      var same, a := ActIs(m, l);
      if !same {
        ActSpares(m.s, l.p, a, q);
        if l.i.Bypass? && IsLive(m.s, q) { LocklessSpares(m.s, l.p, a, q); }
      }
    }
  }

  lemma PlaceOther(m: TreeMachine, l: TreeLabel, n: TreeMachine, q: nat)
    requires TreeOk(m.s) && PlacesOk(m) && Inv(Ready, m) && Step(Ready, m, l, n) && Obeys(Prog, m, l) && l.Exec?
    requires q < |m.procs| && q != l.p
    ensures |n.procs| == |n.s.slots| == |n.s.doing| && PlaceOk(n, q)
  {
    hide TreeOk, Ready, Prog, TablePlace, Inv;
    TableOther(m, l, n, q);
    assert PlaceOk(m, q);
  }

  lemma PlaceElse(m: TreeMachine, l: TreeLabel, n: TreeMachine, q: nat)
    requires PlacesOk(m) && Step(Ready, m, l, n) && !l.Exec? && q < |m.procs|
    ensures n.s == m.s && |n.procs| == |m.procs| && PlaceOk(n, q)
  {
    hide Ready, ExecStep, TablePlace;
    assert PlaceOk(m, l.p) && PlaceOk(m, q);
  }

  lemma PlacesFollow(m: TreeMachine, l: TreeLabel, n: TreeMachine)
    requires TreeOk(m.s) && PlacesOk(m) && Inv(Ready, m) && Step(Ready, m, l, n) && Obeys(Prog, m, l)
    ensures PlacesOk(n)
  {
    hide TreeOk, Step, Obeys, PlaceOk, Inv;
    SameProcs(Ready, m, l, n);
    if l.Exec? { PlaceSelf(m, l, n); } else { PlaceElse(m, l, n, l.p); }
    forall q: nat | q < |n.procs| ensures PlaceOk(n, q) {
      if !l.Exec? { PlaceElse(m, l, n, q); } else if q != l.p { PlaceOther(m, l, n, q); }
    }
  }

  /** In every state of every run the process tree is in order, and every process where the code says. */
  lemma {:induction false} TreeAlways(ms: seq<TreeMachine>, ls: seq<TreeLabel>, k: nat)
    requires TreeRun(ms, ls) && k < |ms|
    ensures TreeOk(ms[k].s) && PlacesOk(ms[k])
  {
    hide Step, Obeys, TreeOk;
    if k > 0 {
      TreeAlways(ms, ls, k - 1);
      RunKeeps(Ready, Prog, Dormant, ms, ls, k - 1);
      assert Step(Ready, ms[k - 1], ls[k - 1], ms[k - 1 + 1]) && Obeys(Prog, ms[k - 1], ls[k - 1]);
      StateFollows(ms[k - 1], ls[k - 1], ms[k]);
      PlacesFollow(ms[k - 1], ls[k - 1], ms[k]);
    } else {
      TableSizes(ms[0].s);
      forall q: nat | q < |ms[0].procs| ensures PlaceOk(ms[0], q) {}
    }
  }

  lemma TableSizes(s: Table)
    requires TreeOk(s)
    ensures |s.doing| == |s.slots|
  {
  }

  // ----- sleeping in wait() -----

  /** reparent() owes init a wakeup for each child; exit() wakes the parent before it becomes a zombie. */
  ghost function Due(): Dues<Ctl> {
    Dues((at: Ctl) => if at.Gave? then iset{at.c} else iset{}, (at: Ctl) => if at.Notified? then iset{at.c} else iset{})
  }

  lemma PaysItsDebts(m: TreeMachine, l: TreeLabel)
    requires TreeOk(m.s) && PlacesOk(m) && Obeys(Prog, m, l)
    ensures HonestStep(Ready, Due(), m, l)
  {
    hide TreeOk, Ready, Makes;
    if l.Exec? {
      assert PlaceOk(m, l.p);
      if l.i.Update? || l.i.Bypass? { ActPays(m, l); }
      if l.i.SleepOn? { NoZombieChild(m.s, l.p); }
    }
  }

  lemma NoZombieChild(s: Table, p: nat)
    requires NoZombieBelow(s, p, |s.slots|)
    ensures !Ready(p + 1, s)
  {
  }

  lemma ActPays(m: TreeMachine, l: TreeLabel)
    requires TreeOk(m.s) && PlacesOk(m) && Obeys(Prog, m, l) && l.Exec? && (l.i.Update? || l.i.Bypass?)
    ensures HonestStep(Ready, Due(), m, l)
  {
    hide TreeOk, Ready, Enabled, Apply;
    assert PlaceOk(m, l.p);
    var same, a := ActIs(m, l);
    forall c | c in Newly(Ready, m.s, l.i.t) ensures l.i.Update? && c in Due().owed(l.at) + Due().paid(m.procs[l.p].at) {
      if !same {
        if l.i.Bypass? { LocklessSilent(m.s, l.p, a); }
        NewlyReady(m.s, l.p, a, c);
      }
    }
  }

  /** With wait_lock free, no process asleep in wait() has a zombie child. */
  lemma WaitersHaveNoZombies(ms: seq<TreeMachine>, ls: seq<TreeLabel>, k: nat, q: nat, i: nat)
    requires TreeRun(ms, ls) && k < |ms| && ms[k].lk == Nobody && q < |ms[k].procs|
    requires ms[k].procs[q].state == Sleeping
    ensures HasChild(ms[k].s, q, i) ==> ms[k].s.slots[i].kind != Zombie
  {
    hide Step, Obeys, TreeOk, HonestStep;
    forall j | 0 <= j < k ensures HonestStep(Ready, Due(), ms[j], ls[j]) {
      TreeAlways(ms, ls, j);
      assert Obeys(Prog, ms[j], ls[j]);
      PaysItsDebts(ms[j], ls[j]);
    }
    NoLostWakeup(Ready, Prog, Dormant, Due(), ms, ls, k, q);
    TreeAlways(ms, ls, k);
    RunKeeps(Ready, Prog, Dormant, ms, ls, k);
    assert Good(Ready, ms[k], q) && PlaceOk(ms[k], q);
  }

  /** No parent pointer names a zombie or an unused slot, and no pid is returned by two calls of wait(). */
  lemma ParentsLive(ms: seq<TreeMachine>, ls: seq<TreeLabel>, k: nat, i: nat)
    requires TreeRun(ms, ls) && k < |ms| && i < |ms[k].s.slots| && ms[k].s.slots[i].parent >= 0
    ensures ms[k].s.slots[i].parent < |ms[k].s.slots| && ms[k].s.slots[ms[k].s.slots[i].parent].kind == Live
    ensures forall a, b :: 0 <= a < b < |ms[k].s.reaped| ==> ms[k].s.reaped[a] != ms[k].s.reaped[b]
  {
    hide Step, Obeys;
    TreeAlways(ms, ls, k);
    assert SlotOk(ms[k].s, i);
  }

  /** Only slot i changed, and it is x now. */
  predicate OnlySlot(s: Table, t: Table, i: nat, x: Slot) {
    && |t.slots| == |s.slots| && i < |t.slots| && t.slots[i] == x && t.init == s.init
    && forall k :: 0 <= k < |s.slots| && k != i ==> t.slots[k] == s.slots[k]
  }

  /** The zombie child i of p is gone, and its pid is on record. */
  predicate Reaped(s: Table, p: nat, i: nat, t: Table) {
    && OnlySlot(s, t, i, Slot(Unused, 0, -1)) && s.slots[i].kind == Zombie && s.slots[i].parent == p
    && t.reaped == s.reaped + [s.slots[i].pid] && t.nextpid == s.nextpid
  }

  /**
    What process p does to the table between s and t. fork() takes an unused slot with a pid never
    used before, makes p its parent and starts it, or gives the slot back. exit() gives children of p
    to init, one at a time, and makes p a zombie when it has none left. wait() frees a zombie child
    of p. Nothing else changes a slot.
  */
  ghost predicate Effect(p: nat, at: Ctl, next: Ctl, s: Table, t: Table) {
    && p < |s.slots| && |s.slots| == |s.doing|
    && match at
       case User =>
         if next != Forked then t.slots == s.slots
         else
           exists j: nat :: j < |s.slots| && s.slots[j].kind == Unused && OnlySlot(s, t, j, Slot(Embryo, s.nextpid, -1))
                            && t.nextpid == s.nextpid + 1 && t.doing == s.doing[p := Forking(j)] && t.reaped == s.reaped
       case Forked =>
         if next != User then t == s
         else s.doing[p].Forking? && OnlySlot(s, t, s.doing[p].child, Slot(Unused, 0, -1)) && t.reaped == s.reaped
       case Adopting =>
         && s.doing[p].Forking? && s.doing[p].child < |s.slots| && s.slots[s.doing[p].child].kind == Embryo
         && OnlySlot(s, t, s.doing[p].child, Slot(Embryo, s.slots[s.doing[p].child].pid, p)) && t.doing == s.doing
       case Starting =>
         && s.doing[p].Forking? && s.doing[p].child < |s.slots| && s.slots[s.doing[p].child].kind == Embryo
         && OnlySlot(s, t, s.doing[p].child, Slot(Live, s.slots[s.doing[p].child].pid, p)) && t.doing == s.doing[p := Nothing]
       case Giving(j) =>
         if j < |s.slots| && s.slots[j].parent == p then OnlySlot(s, t, j, Slot(s.slots[j].kind, s.slots[j].pid, s.init)) else t == s
       case Notified(_) =>
         && OnlySlot(s, t, p, Slot(Zombie, s.slots[p].pid, s.slots[p].parent)) && s.slots[p].kind == Live
         && forall k :: 0 <= k < |s.slots| ==> s.slots[k].parent != p
       case Scanning(j, _) => t == s || (next == Done && Reaped(s, p, j, t))
       case _ => t.slots == s.slots && t.nextpid == s.nextpid && t.reaped == s.reaped
  }

  lemma ProgExactly(p: nat, at: Ctl, s: Table, i: Instr<Table>, next: Ctl)
    requires Prog(p, at, s, i, next) && TreeOk(s) && p < |s.slots| && p < |s.doing| && TablePlace(s, p, at)
    ensures Effect(p, at, next, s, if i.Update? || i.Bypass? then i.t else s)
  {
    assert DoingOk(s, p) && SlotOk(s, p);
    if at == User && next == Forked {
      var j :| Makes(p, s, Alloc(j), i.t);
      assert OnlySlot(s, i.t, j, Slot(Embryo, s.nextpid, -1));
    }
    if at.Notified? {
      forall k | 0 <= k < |s.slots| ensures s.slots[k].parent != p { assert !HasChild(s, p, k); }
    }
  }

  lemma ExecState(m: TreeMachine, l: TreeLabel, n: TreeMachine)
    requires Step(Ready, m, l, n) && Obeys(Prog, m, l) && l.Exec?
    ensures l.p < |m.procs| && Prog(l.p, m.procs[l.p].at, m.s, l.i, l.at)
    ensures n.s == if l.i.Update? || l.i.Bypass? then l.i.t else m.s
  {
    hide Prog, Ready;
  }

  /** In every run the functions do exactly this. */
  lemma ActsExactly(ms: seq<TreeMachine>, ls: seq<TreeLabel>, k: nat)
    requires TreeRun(ms, ls) && k < |ls| && ls[k].Exec?
    ensures ls[k].p < |ms[k].procs|
    ensures Effect(ls[k].p, ms[k].procs[ls[k].p].at, ls[k].at, ms[k].s, ms[k + 1].s)
  {
    hide Step, Obeys, Prog, TreeOk, Effect;
    TreeAlways(ms, ls, k);
    assert Step(Ready, ms[k], ls[k], ms[k + 1]) && Obeys(Prog, ms[k], ls[k]);
    ExecState(ms[k], ls[k], ms[k + 1]);
    assert PlaceOk(ms[k], ls[k].p);
    ProgExactly(ls[k].p, ms[k].procs[ls[k].p].at, ms[k].s, ls[k].i, ls[k].at);
  }

  /** The process that holds wait_lock, unless it is in sleep() or wakeup(), has an instruction to execute. */
  lemma HolderGoesOn(ms: seq<TreeMachine>, ls: seq<TreeLabel>, k: nat, p: nat)
    returns (l: TreeLabel, n: TreeMachine)
    requires TreeRun(ms, ls) && k < |ms| && p < |ms[k].procs| && ms[k].procs[p].pc.In?
    ensures l.p == p && TreeRun(ms[..k + 1] + [n], ls[..k] + [l])
  {
    hide Step, Obeys, TreeOk, TablePlace, Prog;
    TreeAlways(ms, ls, k);
    var m := ms[k];
    assert PlaceOk(m, p);
    var i, next := Instruction(m.s, m.procs[p].at, p);
    n := CanExecute(Ready, Prog, m, p, i, next);
    l := Exec(p, i, next);
    RunPrefix(Ready, Prog, Dormant, ms, ls, k);
    RunMore(Ready, Prog, Dormant, ms[..k + 1], ls[..k], l, n);
  }

  lemma Instruction(s: Table, at: Ctl, p: nat) returns (i: Instr<Table>, next: Ctl)
    requires TreeOk(s) && p < |s.slots| == |s.doing| && TablePlace(s, p, at) && !LockFree(at)
    ensures Prog(p, at, s, i, next) && !i.Lock? && !i.Bypass?
  {
    i, next := Unlock, User;
    assert SlotOk(s, p) && DoingOk(s, p);
    match at
    case Adopting => i, next := Update(Apply(s, p, Adopt)), Adopted;
    case Adopted => next := Starting;
    case Leaving => i, next := Update(Apply(s, p, BeginExit)), Giving(0);
    case Giving(j) =>
      if j >= |s.slots| { i, next := WakeUp(s.slots[p].parent + 1), Notified(s.slots[p].parent + 1); }
      else if s.slots[j].parent == p { i, next := Update(Apply(s, p, Reparent(j))), Gave(j, s.init + 1); }
      else { i, next := Update(s), Giving(j + 1); }
    case Gave(j, c) => i, next := WakeUp(c), Giving(j + 1);
    case Notified(_) => i, next := Update(Apply(s, p, Die)), Dead;
    case Dead => next := Dormant;
    case Scanning(j, kids) =>
      if j >= |s.slots| { }
      else if s.slots[j].parent != p { i, next := Update(s), Scanning(j + 1, kids); }
      else if s.slots[j].kind != Zombie { i, next := Update(s), Scanning(j + 1, true); }
      else { i, next := Update(Apply(s, p, Reap(j))), Done; }
    case Done =>
  }

  // ----- the functions as loops -----

  /**
    The process in slot p inside exit() or wait(), holding wait_lock. Every update, wakeup, sleep
    and release is an instruction of Prog, so that what it does are steps of the runs above. What
    the others do while it sleeps is given as sequences of acts.
  */
  class Call {
    const p: nat
    var t: Table
    ghost var at: Ctl

    /** The process is where its program says, in a tree in order. */
    ghost predicate Ok() reads this {
      TreeOk(t) && |t.doing| == |t.slots| && p < |t.slots| && TablePlace(t, p, at)
    }

    /** Everything but an update of the table: wakeup(), release(), going on. */
    ghost method Go(i: Instr<Table>, next: Ctl)
      requires Prog(p, at, t, i, next) && (i.WakeUp? || i.Unlock? || i == Update(t))
      modifies `at
      ensures at == next
    {
      at := next;
    }

    method Do(u: Table, ghost a: Act, ghost next: Ctl)
      requires TreeOk(t) && Makes(p, t, a, u) && Prog(p, at, t, Update(u), next)
      modifies this
      ensures t == u && at == next && TreeOk(t)
    {
      ActKeeps(t, p, a);
      t := u;
      at := next;
    }

    /** reparent(): afterwards init has the children of the process, and nobody else has moved. */
    method GiveToInit()
      requires Ok() && at == Giving(0)
      modifies this
      ensures Ok() && at == Giving(|t.slots|)
      ensures t == old(t).(slots := t.slots) && |t.slots| == |old(t).slots|
      ensures forall i :: 0 <= i < |t.slots| ==>
                t.slots[i] == if old(t).slots[i].parent == p then old(t).slots[i].(parent := t.init) else old(t).slots[i]
    {
      hide TreeOk;
      var pp := 0;
      InitLives(t, p);
      while pp < |t.slots|
        invariant TreeOk(t) && IsLive(t, p) && t.doing[p] == Exiting && p != t.init && at == Giving(pp)
        invariant t == old(t).(slots := t.slots) && |t.slots| == |old(t).slots| && pp <= |t.slots|
        invariant forall i :: 0 <= i < |t.slots| ==>
                    t.slots[i] == if i < pp && old(t).slots[i].parent == p then old(t).slots[i].(parent := t.init)
                                  else old(t).slots[i]
      {
        if t.slots[pp].parent == p {
          Do(t.(slots := t.slots[pp := t.slots[pp].(parent := t.init)]), Reparent(pp), Gave(pp, t.init + 1));
          InitLives(t, p);
          Go(WakeUp(t.init + 1), Giving(pp + 1));
        } else {
          Go(Update(t), Giving(pp + 1));
        }
        pp := pp + 1;
      }
    }

    /** exit(), once it has wait_lock: the process is a zombie, and init has its children. */
    method Exit()
      requires Ok() && at == Leaving
      modifies this
      ensures TreeOk(t) && at == Dormant && |t.slots| == |old(t).slots| && t.reaped == old(t).reaped && t.init == old(t).init
      ensures t.slots[p] == old(t).slots[p].(kind := Zombie)
      ensures forall i :: 0 <= i < |t.slots| && i != p ==>
                t.slots[i] == if old(t).slots[i].parent == p then old(t).slots[i].(parent := t.init) else old(t).slots[i]
    {
      hide TreeOk;
      Do(t.(doing := t.doing[p := Exiting]), BeginExit, Giving(0));
      InitLives(t, p);
      NotOwnParent(t, p);
      GiveToInit();
      BecomeZombie();
    }

    /** The end of exit(): wake the parent, become a zombie, release wait_lock. */
    method BecomeZombie()
      requires Ok() && at == Giving(|t.slots|)
      modifies this
      ensures TreeOk(t) && at == Dormant
      ensures t == old(t).(slots := old(t).slots[p := old(t).slots[p].(kind := Zombie)], doing := old(t).doing[p := Nothing])
    {
      hide TreeOk;
      NotOwnParent(t, p);
      Go(WakeUp(t.slots[p].parent + 1), Notified(t.slots[p].parent + 1));
      Do(t.(slots := t.slots[p := t.slots[p].(kind := Zombie)], doing := t.doing[p := Nothing]), Die, Dead);
      Go(Unlock, Dormant);
    }

    /** sleep(): the others act; then the process has wait_lock again. */
    method Sleep(others: seq<(nat, Act)>)
      requires Ok() && at.Scanning? && Prog(p, at, t, SleepOn(p + 1), Scanning(0, false))
      modifies this
      ensures Ok() && at == Scanning(0, false)
    {
      hide TreeOk, Enabled, Apply, Prog;
      var k := 0;
      while k < |others|
        invariant k <= |others| && TreeOk(t) && IsLive(t, p) && t.doing[p] == Nothing
      {
        var (q, a) := others[k];
        if q != p && Enabled(t, q, a) {
          ActKeeps(t, q, a);
          OthersSpare(t, p, q, a);
          t := Apply(t, q, a);
        }
        k := k + 1;
      }
      at := Scanning(0, false);
      TableSizes(t);
    }

    /**
      wait() in a process found killed once it has slept kills times; copies says whether the exit
      status can be copied out. It frees a zombie child and returns its pid, or returns -1: without
      children, when killed, or if the copy fails, which leaves the zombie. It sleeps, in the states
      waits, only with children none of which is a zombie. done is false if it sleeps for ever.
    */
    method Wait(kills: nat, copies: bool, env: seq<seq<(nat, Act)>>)
      returns (pid: int, done: bool, ghost s: Table, ghost i: nat, ghost waits: seq<Table>)
      requires Ok() && at == Scanning(0, false)
      modifies this
      ensures Ok() && at == if done then User else Scanning(|t.slots|, true)
      ensures waits == [] && done ==> s == old(t)
      ensures done && pid != -1 ==> copies && |waits| <= kills && Reaped(s, p, i, t) && pid == s.slots[i].pid
      ensures done && pid == -1 ==>
                && t == s
                && ((forall k :: 0 <= k < |t.slots| ==> !HasChild(t, p, k)) || |waits| == kills
                    || (!copies && HasChild(t, p, i) && t.slots[i].kind == Zombie))
      ensures !done ==> AllRunning(t, p) && |waits| == |env| < kills
      ensures forall k :: 0 <= k < |waits| ==> AllRunning(waits[k], p)
    {
      hide TreeOk;
      s, i, waits := t, 0, [];
      var e := 0;
      while true
        invariant e == |waits| <= |env| && e <= kills && Ok() && at == Scanning(0, false) && (waits == [] ==> t == old(t))
        invariant forall k :: 0 <= k < |waits| ==> AllRunning(waits[k], p)
        decreases |env| - e
      {
        var havekids, np := Scan();
        s := t;
        if np < |t.slots| {
          i := np;
          if copies { pid := Free(np); } else { pid := -1; Go(Update(t), Done); }
          Go(Unlock, User);
          return pid, true, s, i, waits;
        }
        if !havekids || e >= kills {
          Go(Unlock, User);
          return -1, true, s, i, waits;
        }
        if e == |env| { return -1, false, s, i, waits; }
        waits := waits + [t];
        Sleep(env[e]);
        e := e + 1;
      }
    }

    /** The loop of wait() over the table: to the first zombie child, or to the end. */
    method Scan() returns (havekids: bool, np: nat)
      requires Ok() && at == Scanning(0, false)
      modifies `at
      ensures Ok() && np <= |t.slots| && at == Scanning(np, havekids)
      ensures np < |t.slots| ==> HasChild(t, p, np) && t.slots[np].kind == Zombie
      ensures np == |t.slots| ==> (havekids <==> exists k :: 0 <= k < |t.slots| && HasChild(t, p, k))
    {
      hide TreeOk;
      havekids, np := false, 0;
      while np < |t.slots|
        invariant np <= |t.slots| && Ok() && at == Scanning(np, havekids)
        invariant havekids <==> exists k :: 0 <= k < np && HasChild(t, p, k)
      {
        if t.slots[np].parent == p {
          assert HasChild(t, p, np);
          if t.slots[np].kind == Zombie { return; }
          havekids := true;
          Go(Update(t), Scanning(np + 1, true));
        } else {
          Go(Update(t), Scanning(np + 1, havekids));
        }
        np := np + 1;
      }
    }

    /** freeproc() of a zombie child. */
    method Free(np: nat) returns (pid: nat)
      requires Ok() && at.Scanning? && at.j == np < |t.slots| && HasChild(t, p, np) && t.slots[np].kind == Zombie
      modifies this
      ensures Ok() && at == Done && Reaped(old(t), p, np, t) && pid == old(t).slots[np].pid
    {
      hide TreeOk;
      pid := t.slots[np].pid;
      Do(t.(slots := t.slots[np := Slot(Unused, 0, -1)], reaped := t.reaped + [t.slots[np].pid]), Reap(np), Done);
    }
  }

  /** The process has children, and none of them is a zombie. */
  ghost predicate AllRunning(s: Table, p: nat) {
    NoZombieBelow(s, p, |s.slots|) && exists k :: 0 <= k < |s.slots| && HasChild(s, p, k)
  }

  /** Acts of other processes leave a live process alive and what it is doing alone. */
  lemma OthersSpare(s: Table, p: nat, q: nat, a: Act)
    requires TreeOk(s) && IsLive(s, p) && q != p && Enabled(s, q, a)
    ensures IsLive(Apply(s, q, a), p) && Apply(s, q, a).doing[p] == s.doing[p]
  {
    assert DoingOk(s, q);
  }

  lemma InitLives(s: Table, p: nat)
    requires TreeOk(s) && p < |s.doing| && s.doing[p] == Exiting
    ensures s.init < |s.slots| && p != s.init && |s.doing| == |s.slots|
  {
    assert DoingOk(s, p);
  }

  /** The process that exits has a parent, which is not itself. */
  lemma NotOwnParent(s: Table, p: nat)
    requires TreeOk(s) && IsLive(s, p) && s.doing[p] == Exiting
    ensures s.slots[p].parent >= 0 && s.slots[p].parent != p
  {
    assert DoingOk(s, p) && SlotOk(s, p);
  }
}
