/** Sleep locks (kernel/sleeplock.c), the smallest client of sleep() and wakeup(). */
module SleepLock {
  import opened SleepWakeup

  const CHAN: nat := 1

  /** locked, and the process that pid names. */
  datatype Lk = Lk(locked: bool, owner: Holder)

  /** acquiresleep() waits until the lock is not locked. */
  predicate Ready(c: nat, s: Lk) { c == CHAN && !s.locked }

  /** Where a process is in acquiresleep() and releasesleep(). */
  datatype Ctl =
    | Idle                          // has no lock and wants none
    | Trying                        // in the loop of acquiresleep()
    | Got                           // about to leave acquiresleep()
    | Owner                         // has the sleep lock
    | Freeing                       // in releasesleep()
    | Freed                         // locked cleared, about to call wakeup()
    | Woken                         // about to leave releasesleep()

  /** The two functions: process p at a point of the code, with the lock in state s, does i and is then at next. */
  predicate Prog(p: nat, at: Ctl, s: Lk, i: Instr<Lk>, next: Ctl) {
    match at
    case Idle => i == Lock && next == Trying
    case Trying =>
      if s.locked then i == SleepOn(CHAN) && next == Trying else i == Update(Lk(true, By(p))) && next == Got
    case Got => i == Unlock && next == Owner
    case Owner => i == Lock && next == Freeing
    case Freeing => i == Update(Lk(false, Nobody)) && next == Freed
    case Freed => i == WakeUp(CHAN) && next == Woken
    case Woken => i == Unlock && next == Idle
  }

  ghost predicate LockRun(ms: seq<Machine<Lk, Ctl>>, ls: seq<Label<Lk, Ctl>>) {
    Run(Ready, Prog, Idle, ms, ls) && ms[0].s == Lk(false, Nobody)
  }

  /** Between Got and Freeing a process owns the lock, and it holds the inner lock where the code says. */
  ghost predicate PlaceOk(m: Machine<Lk, Ctl>, q: nat)
    requires q < |m.procs|
  {
    var me := m.procs[q];
    && (me.at == Got || me.at == Owner || me.at == Freeing <==> m.s.owner == By(q))
    && (me.pc.Out? <==> me.at == Idle || me.at == Owner)
    && (Asleep(me.pc) ==> me.at == Trying && me.pc.c == CHAN)
    && (me.pc.Wake? || me.pc.WakeLocked? ==> me.at == Woken)
  }

  ghost predicate Ok(m: Machine<Lk, Ctl>) {
    && (m.s.locked <==> m.s.owner.By?)
    && (m.s.owner.By? ==> m.s.owner.p < |m.procs|)
    && forall q: nat {:trigger PlaceOk(m, q)} :: q < |m.procs| ==> PlaceOk(m, q)
  }

  lemma ExecOk(m: Machine<Lk, Ctl>, l: Label<Lk, Ctl>, n: Machine<Lk, Ctl>)
    requires Ok(m) && Step(Ready, m, l, n) && Obeys(Prog, m, l) && l.Exec?
    ensures Ok(n)
  {
    hide Ready;
    assert PlaceOk(m, l.p) && PlaceOk(n, l.p);
    forall q: nat | q < |n.procs| && q != l.p ensures PlaceOk(n, q) { assert PlaceOk(m, q); }
  }

  lemma ElseOk(m: Machine<Lk, Ctl>, l: Label<Lk, Ctl>, n: Machine<Lk, Ctl>, q: nat)
    requires Ok(m) && Step(Ready, m, l, n) && !l.Exec? && q < |m.procs|
    ensures n.s == m.s && |n.procs| == |m.procs| && PlaceOk(n, q)
  {
    hide Ready, ExecStep;
    assert PlaceOk(m, l.p) && PlaceOk(m, q);
  }

  lemma StepOk(m: Machine<Lk, Ctl>, l: Label<Lk, Ctl>, n: Machine<Lk, Ctl>)
    requires Ok(m) && Step(Ready, m, l, n) && Obeys(Prog, m, l)
    ensures Ok(n)
  {
    hide Step, Obeys, PlaceOk;
    SameProcs(Ready, m, l, n);
    if l.Exec? {
      ExecOk(m, l, n);
    } else {
      ElseOk(m, l, n, l.p);
      forall q: nat | q < |n.procs| ensures PlaceOk(n, q) { ElseOk(m, l, n, q); }
    }
  }

  /** releasesleep() owes a wakeup between clearing locked and calling wakeup(). */
  ghost function Due(): Dues<Ctl> { Dues((at: Ctl) => if at == Freed then iset{CHAN} else iset{}, (at: Ctl) => iset{}) }

  lemma PaysItsDebts(m: Machine<Lk, Ctl>, l: Label<Lk, Ctl>)
    requires Ok(m) && Obeys(Prog, m, l)
    ensures HonestStep(Ready, Due(), m, l)
  {
    if l.Exec? { assert PlaceOk(m, l.p); }
  }

  lemma {:induction false} LockSafe(ms: seq<Machine<Lk, Ctl>>, ls: seq<Label<Lk, Ctl>>, k: nat)
    requires LockRun(ms, ls) && k < |ms|
    ensures Ok(ms[k])
  {
    hide Step, Obeys;
    if k > 0 {
      LockSafe(ms, ls, k - 1);
      assert Step(Ready, ms[k - 1], ls[k - 1], ms[k - 1 + 1]) && Obeys(Prog, ms[k - 1], ls[k - 1]);
      StepOk(ms[k - 1], ls[k - 1], ms[k]);
    } else {
      forall q: nat | q < |ms[0].procs| ensures PlaceOk(ms[0], q) {}
    }
  }

  /** At most one process at a time has the lock. */
  lemma MutualExclusion(ms: seq<Machine<Lk, Ctl>>, ls: seq<Label<Lk, Ctl>>, k: nat, p: nat, q: nat)
    requires LockRun(ms, ls) && k < |ms| && p < |ms[k].procs| && q < |ms[k].procs|
    requires ms[k].procs[p].at == Owner && ms[k].procs[q].at == Owner
    ensures p == q && ms[k].s == Lk(true, By(p))
  {
    hide Step, Obeys;
    LockSafe(ms, ls, k);
    assert PlaceOk(ms[k], p) && PlaceOk(ms[k], q);
  }

  /** With the inner lock free, a process asleep in acquiresleep() implies that another one has the lock. */
  lemma SleeperMeansLocked(ms: seq<Machine<Lk, Ctl>>, ls: seq<Label<Lk, Ctl>>, k: nat, q: nat)
    requires LockRun(ms, ls) && k < |ms| && ms[k].lk == Nobody && q < |ms[k].procs|
    requires ms[k].procs[q].state == Sleeping
    ensures ms[k].s.owner.By? && ms[k].s.owner.p < |ms[k].procs| && ms[k].s.owner.p != q
    ensures ms[k].procs[ms[k].s.owner.p].at == Owner
  {
    hide Step, Obeys, HonestStep;
    LockSafe(ms, ls, k);
    forall i | 0 <= i < k ensures HonestStep(Ready, Due(), ms[i], ls[i]) {
      LockSafe(ms, ls, i);
      assert Obeys(Prog, ms[i], ls[i]);
      PaysItsDebts(ms[i], ls[i]);
    }
    NoLostWakeup(Ready, Prog, Idle, Due(), ms, ls, k, q);
    RunKeeps(Ready, Prog, Idle, ms, ls, k);
    assert Good(Ready, ms[k], q) && PlaceOk(ms[k], q);
    var p := ms[k].s.owner.p;
    assert Good(Ready, ms[k], p) && PlaceOk(ms[k], p);
  }

  /** The process that holds the inner lock, unless it is in sleep() or wakeup(), has an instruction to execute. */
  lemma HolderGoesOn(ms: seq<Machine<Lk, Ctl>>, ls: seq<Label<Lk, Ctl>>, k: nat, p: nat)
    returns (l: Label<Lk, Ctl>, n: Machine<Lk, Ctl>)
    requires LockRun(ms, ls) && k < |ms| && p < |ms[k].procs| && ms[k].procs[p].pc.In?
    ensures l.p == p && LockRun(ms[..k + 1] + [n], ls[..k] + [l])
  {
    hide Step, Obeys;
    LockSafe(ms, ls, k);
    var m := ms[k];
    assert PlaceOk(m, p);
    var i, next := Unlock, Idle;
    match m.procs[p].at {
      case Trying => if m.s.locked { i, next := SleepOn(CHAN), Trying; } else { i, next := Update(Lk(true, By(p))), Got; }
      case Got => next := Owner;
      case Freeing => i, next := Update(Lk(false, Nobody)), Freed;
      case Freed => i, next := WakeUp(CHAN), Woken;
      case Woken =>
    }
    n := CanExecute(Ready, Prog, m, p, i, next);
    l := Exec(p, i, next);
    RunPrefix(Ready, Prog, Idle, ms, ls, k);
    RunMore(Ready, Prog, Idle, ms[..k + 1], ls[..k], l, n);
  }
}
