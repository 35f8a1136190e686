/**
  sleep() and wakeup() (kernel/proc.c) as interleaved steps of any number of processes.

  A lock lk protects a state s. A process that holds lk may sleep on a channel c, which means
  that it waits for the condition ready(c, s). Each process executes a program; each step below
  is one instruction of a program, or one acquire, one release or one update that sleep(),
  wakeup() or kill() makes under the lock that protects it.

  Two histories record what became of the conditions. They appear in no guard, so they restrict
  no run. The debt is the set of channels whose condition has become true, or was true when a
  process decided to sleep, with no later wakeup(). The credit is the set of channels for which
  the holder of lk has called wakeup() since it got lk: who waits on them is awake already.
*/
module SleepWakeup {

  datatype Sched = Running | Runnable | Sleeping

  /** Where a process is; Nobody marks a free lock. */
  datatype Pc =
    | Out                           // does not hold lk
    | In                            // holds lk
    | Locking(c: nat)               // in sleep(), before acquire(&p->lock)
    | Locked(c: nat)                // holds lk and p->lock
    | Released(c: nat)              // lk released, p->lock held
    | Named(c: nat)                 // p->chan set
    | Marked(c: nat)                // p->state set, about to switch
    | Gone(c: nat)                  // switched away
    | Back(c: nat)                  // scheduled again, p->lock held
    | Tidy(c: nat)                  // p->chan cleared
    | Retry(c: nat)                 // p->lock released, before acquire(lk)
    | Wake(c: nat, k: nat)          // in wakeup(c), about to look at process k
    | WakeLocked(c: nat, k: nat)    // in wakeup(c), holding the lock of process k

  datatype Holder = Nobody | By(p: nat)

  /** at is the point of its program that the process has reached. */
  datatype Proc<K> = Proc(at: K, pc: Pc, state: Sched, chan: nat, lock: Holder)

  datatype Machine<S, K> = Machine(s: S, lk: Holder, debt: iset<nat>, credit: iset<nat>, procs: seq<Proc<K>>)

  predicate HoldsLk(pc: Pc) { pc.In? || pc.Locking? || pc.Locked? || pc.Wake? || pc.WakeLocked? }

  predicate HoldsOwn(pc: Pc) {
    pc.Locked? || pc.Released? || pc.Named? || pc.Marked? || pc.Back? || pc.Tidy?
  }

  /** What a program can do. */
  datatype Instr<S> =
    | Lock                          // acquire(lk)
    | Unlock                        // release(lk)
    | Update(t: S)                  // change the state, holding lk
    | Bypass(t: S)                  // change the state, not holding lk
    | SleepOn(c: nat)               // sleep(c, lk)
    | WakeUp(c: nat)                // wakeup(c), holding lk

  /** The steps; p is the process that takes the step, at the point its program has then reached. */
  datatype Label<S, K> =
    | Exec(p: nat, i: Instr<S>, at: K)
    | LockSelf(p: nat)
    | ReleaseLk(p: nat)
    | SetChan(p: nat)
    | SetState(p: nat)
    | Switch(p: nat)
    | Resume(p: nat)
    | ClearChan(p: nat)
    | UnlockSelf(p: nat)
    | Reacquire(p: nat)
    | LockOther(p: nat)
    | WakeOther(p: nat)
    | Skip(p: nat)                  // wakeup() passes over the caller
    | EndWake(p: nat)
    | Kill(p: nat)                  // kill() makes a sleeping process runnable

  function Goto<S, K>(m: Machine<S, K>, p: nat, pc: Pc): Machine<S, K>
    requires p < |m.procs|
  {
    m.(procs := m.procs[p := m.procs[p].(pc := pc)])
  }

  function Move<S, K>(m: Machine<S, K>, p: nat, at: K, pc: Pc): Machine<S, K>
    requires p < |m.procs|
  {
    m.(procs := m.procs[p := m.procs[p].(at := at, pc := pc)])
  }

  /** The channels whose condition becomes true. */
  ghost function Newly<S>(ready: (nat, S) -> bool, s: S, t: S): iset<nat> {
    iset c: nat | ready(c, t) && !ready(c, s)
  }

  ghost predicate ExecStep<S, K>(ready: (nat, S) -> bool, m: Machine<S, K>, p: nat, i: Instr<S>, at: K, n: Machine<S, K>)
    requires p < |m.procs|
  {
    var pc := m.procs[p].pc;
    match i
    case Lock => pc.Out? && m.lk == Nobody && n == Move(m, p, at, In).(lk := By(p))
    case Unlock => pc.In? && n == Move(m, p, at, Out).(lk := Nobody, credit := iset{})
    case Update(t) => pc.In? && n == Move(m, p, at, In).(s := t, debt := m.debt + (Newly(ready, m.s, t) - m.credit))
    case Bypass(t) => pc.Out? && n == Move(m, p, at, Out).(s := t, debt := m.debt + Newly(ready, m.s, t))
    case SleepOn(c) => pc.In? && n == Move(m, p, at, Locking(c)).(debt := m.debt + (if ready(c, m.s) then iset{c} else iset{}))
    case WakeUp(c) => pc.In? && n == Move(m, p, at, Wake(c, 0))
  }

  ghost predicate Step<S, K>(ready: (nat, S) -> bool, m: Machine<S, K>, l: Label<S, K>, n: Machine<S, K>) {
    && l.p < |m.procs|
    && var p, me := l.p, m.procs[l.p];
       match l
       case Exec(_, i, at) => ExecStep(ready, m, p, i, at, n)
       case LockSelf(_) =>
         && me.pc.Locking? && me.lock == Nobody
         && n == m.(procs := m.procs[p := me.(pc := Locked(me.pc.c), lock := By(p))])
       case ReleaseLk(_) => me.pc.Locked? && n == Goto(m, p, Released(me.pc.c)).(lk := Nobody, credit := iset{})
       case SetChan(_) =>
         me.pc.Released? && n == m.(procs := m.procs[p := me.(pc := Named(me.pc.c), chan := me.pc.c)])
       case SetState(_) =>
         me.pc.Named? && n == m.(procs := m.procs[p := me.(pc := Marked(me.pc.c), state := Sleeping)])
       case Switch(_) =>
         me.pc.Marked? && n == m.(procs := m.procs[p := me.(pc := Gone(me.pc.c), lock := Nobody)])
       case Resume(_) =>
         && me.pc.Gone? && me.state == Runnable && me.lock == Nobody
         && n == m.(procs := m.procs[p := me.(pc := Back(me.pc.c), state := Running, lock := By(p))])
       case ClearChan(_) =>
         me.pc.Back? && n == m.(procs := m.procs[p := me.(pc := Tidy(me.pc.c), chan := 0)])
       case UnlockSelf(_) =>
         me.pc.Tidy? && n == m.(procs := m.procs[p := me.(pc := Retry(me.pc.c), lock := Nobody)])
       case Reacquire(_) => me.pc.Retry? && m.lk == Nobody && n == Goto(m, p, In).(lk := By(p))
       case LockOther(_) =>
         && me.pc.Wake? && me.pc.k < |m.procs| && me.pc.k != p && m.procs[me.pc.k].lock == Nobody
         && var k := me.pc.k;
            n == Goto(m.(procs := m.procs[k := m.procs[k].(lock := By(p))]), p, WakeLocked(me.pc.c, k))
       case WakeOther(_) =>
         && me.pc.WakeLocked? && me.pc.k < |m.procs|
         && var k, q := me.pc.k, m.procs[me.pc.k];
            var woken := if q.state == Sleeping && q.chan == me.pc.c then Runnable else q.state;
            n == Goto(m.(procs := m.procs[k := q.(state := woken, lock := Nobody)]), p, Wake(me.pc.c, k + 1))
       case Skip(_) => me.pc.Wake? && me.pc.k == p && n == Goto(m, p, Wake(me.pc.c, p + 1))
       case EndWake(_) =>
         && me.pc.Wake? && me.pc.k == |m.procs|
         && n == Goto(m, p, In).(debt := m.debt - iset{me.pc.c}, credit := m.credit + iset{me.pc.c})
       case Kill(_) =>
         && me.lock == Nobody
         && n == if me.state == Sleeping then m.(procs := m.procs[p := me.(state := Runnable)]) else m
  }

  // ----- the invariant -----

  /** The locks process q holds are those its place in the code says. */
  ghost predicate LocksOk<S, K>(m: Machine<S, K>, q: nat)
    requires q < |m.procs|
  {
    var me := m.procs[q];
    && (HoldsLk(me.pc) <==> m.lk == By(q))
    && (HoldsOwn(me.pc) ==> me.lock == By(q))
    && (me.pc.WakeLocked? ==> me.pc.k < |m.procs| && me.pc.k != q && m.procs[me.pc.k].lock == By(q))
    && (me.pc.Wake? ==> me.pc.k <= |m.procs|)
    && (me.lock.By? ==> me.lock.p < |m.procs|)
    && (me.lock.By? && me.lock.p == q ==> HoldsOwn(me.pc))
    && (me.lock.By? && me.lock.p != q ==>
          var h := m.procs[me.lock.p].pc; h.WakeLocked? && h.k == q)
  }

  ghost predicate StateOk<K>(me: Proc<K>) {
    && (me.pc.Named? || me.pc.Marked? || me.pc.Gone? ==> me.chan == me.pc.c)
    && (me.state == Sleeping ==> me.pc.Marked? || me.pc.Gone?)
  }

  /** Process me has given up lk to wait on its channel and nobody has woken it. */
  predicate Waits<K>(me: Proc<K>) {
    me.pc.Released? || me.pc.Named? || me.pc.Marked? || (me.pc.Gone? && me.state == Sleeping)
  }

  /** The holder of lk is in wakeup(c) and has passed process q. */
  ghost predicate Passed<S, K>(m: Machine<S, K>, c: nat, q: nat) {
    && m.lk.By? && m.lk.p < |m.procs|
    && var h := m.procs[m.lk.p].pc; (h.Wake? || h.WakeLocked?) && h.c == c && q < h.k
  }

  ghost predicate WaitOk<S, K>(ready: (nat, S) -> bool, m: Machine<S, K>, q: nat)
    requires q < |m.procs|
  {
    var me := m.procs[q];
    && (Waits(me) ==> me.pc.c !in m.credit && !Passed(m, me.pc.c, q))
    && (me.pc.Locking? || me.pc.Locked? || Waits(me) ==> ready(me.pc.c, m.s) ==> me.pc.c in m.debt)
  }

  ghost predicate Good<S, K>(ready: (nat, S) -> bool, m: Machine<S, K>, q: nat)
    requires q < |m.procs|
  {
    LocksOk(m, q) && StateOk(m.procs[q]) && WaitOk(ready, m, q)
  }

  ghost predicate Inv<S, K>(ready: (nat, S) -> bool, m: Machine<S, K>) {
    && (m.lk == Nobody ==> m.credit == iset{})
    && (m.lk.By? ==> m.lk.p < |m.procs|)
    && (forall q: nat {:trigger Good(ready, m, q)} :: q < |m.procs| ==> Good(ready, m, q))
  }

  /** The steps that change one process only, and neither lk nor the debt. */
  predicate Own<S, K>(l: Label<S, K>) { Going(l) || l.Resume? || l.ClearChan? || l.UnlockSelf? || l.Skip? || l.Kill? }

  /** Those of them on the way to sleep. */
  predicate Going<S, K>(l: Label<S, K>) { l.LockSelf? || l.SetChan? || l.SetState? || l.Switch? }

  predicate Waking<S, K>(l: Label<S, K>) { l.LockOther? || l.WakeOther? }

  lemma LocksKeptGoing<S, K>(ready: (nat, S) -> bool, m: Machine<S, K>, l: Label<S, K>, n: Machine<S, K>, q: nat)
    requires Inv(ready, m) && Step(ready, m, l, n) && q < |m.procs| && Going(l)
    ensures |n.procs| == |m.procs| && LocksOk(n, q)
  {
    hide WaitOk, StateOk, ExecStep;
    assert Good(ready, m, l.p) && Good(ready, m, q);
  }

  lemma LocksKeptOwn<S, K>(ready: (nat, S) -> bool, m: Machine<S, K>, l: Label<S, K>, n: Machine<S, K>, q: nat)
    requires Inv(ready, m) && Step(ready, m, l, n) && q < |m.procs| && Own(l) && !Going(l)
    ensures |n.procs| == |m.procs| && LocksOk(n, q)
  {
    hide WaitOk, StateOk, ExecStep;
    assert Good(ready, m, l.p) && Good(ready, m, q);
  }

  lemma LocksKeptWake<S, K>(ready: (nat, S) -> bool, m: Machine<S, K>, l: Label<S, K>, n: Machine<S, K>, q: nat)
    requires Inv(ready, m) && Step(ready, m, l, n) && q < |m.procs| && Waking(l)
    ensures |n.procs| == |m.procs| && LocksOk(n, q)
  {
    hide WaitOk, StateOk, ExecStep;
    assert Good(ready, m, l.p) && Good(ready, m, q);
  }

  lemma LocksKept<S, K>(ready: (nat, S) -> bool, m: Machine<S, K>, l: Label<S, K>, n: Machine<S, K>, q: nat)
    requires Inv(ready, m) && Step(ready, m, l, n) && q < |m.procs| && !Own(l) && !Waking(l)
    ensures |n.procs| == |m.procs| && LocksOk(n, q)
  {
    hide WaitOk, StateOk;
    assert Good(ready, m, l.p) && Good(ready, m, q);
  }

  lemma StateKept<S, K>(ready: (nat, S) -> bool, m: Machine<S, K>, l: Label<S, K>, n: Machine<S, K>, q: nat)
    requires Inv(ready, m) && Step(ready, m, l, n) && q < |m.procs|
    ensures |n.procs| == |m.procs| && StateOk(n.procs[q])
  {
    hide WaitOk;
    assert Good(ready, m, l.p) && Good(ready, m, q);
  }

  lemma WaitKeptGoing<S, K>(ready: (nat, S) -> bool, m: Machine<S, K>, l: Label<S, K>, n: Machine<S, K>, q: nat)
    requires Inv(ready, m) && Step(ready, m, l, n) && q < |m.procs| && Going(l)
    ensures |n.procs| == |m.procs| && WaitOk(ready, n, q)
  {
    hide ExecStep;
    assert Good(ready, m, l.p) && Good(ready, m, q);
  }

  lemma WaitKeptOwn<S, K>(ready: (nat, S) -> bool, m: Machine<S, K>, l: Label<S, K>, n: Machine<S, K>, q: nat)
    requires Inv(ready, m) && Step(ready, m, l, n) && q < |m.procs| && Own(l) && !Going(l)
    ensures |n.procs| == |m.procs| && WaitOk(ready, n, q)
  {
    hide ExecStep;
    assert Good(ready, m, l.p) && Good(ready, m, q);
  }

  lemma WaitKeptWake<S, K>(ready: (nat, S) -> bool, m: Machine<S, K>, l: Label<S, K>, n: Machine<S, K>, q: nat)
    requires Inv(ready, m) && Step(ready, m, l, n) && q < |m.procs| && Waking(l)
    ensures |n.procs| == |m.procs| && WaitOk(ready, n, q)
  {
    hide ExecStep;
    assert Good(ready, m, l.p) && Good(ready, m, q);
  }

  /** Giving up or getting lk, and the end of wakeup(). */
  lemma WaitKeptLk<S, K>(ready: (nat, S) -> bool, m: Machine<S, K>, l: Label<S, K>, n: Machine<S, K>, q: nat)
    requires Inv(ready, m) && Step(ready, m, l, n) && q < |m.procs| && (l.ReleaseLk? || l.Reacquire? || l.EndWake?)
    ensures |n.procs| == |m.procs| && WaitOk(ready, n, q)
  {
    hide StateOk, ExecStep;
    assert Good(ready, m, l.p) && Good(ready, m, q);
  }

  lemma WaitKeptExec<S, K>(ready: (nat, S) -> bool, m: Machine<S, K>, l: Label<S, K>, n: Machine<S, K>, q: nat)
    requires Inv(ready, m) && Step(ready, m, l, n) && q < |m.procs| && l.Exec?
    ensures |n.procs| == |m.procs| && WaitOk(ready, n, q)
  {
    hide StateOk;
    assert Good(ready, m, l.p) && Good(ready, m, q);
  }

  lemma LockKept<S, K>(ready: (nat, S) -> bool, m: Machine<S, K>, l: Label<S, K>, n: Machine<S, K>)
    requires Inv(ready, m) && Step(ready, m, l, n)
    ensures |n.procs| == |m.procs| && (n.lk == Nobody ==> n.credit == iset{}) && (n.lk.By? ==> n.lk.p < |n.procs|)
  {
    assert Good(ready, m, l.p);
  }

  /** Every step keeps the invariant. */
  lemma StepKeeps<S, K>(ready: (nat, S) -> bool, m: Machine<S, K>, l: Label<S, K>, n: Machine<S, K>)
    requires Inv(ready, m) && Step(ready, m, l, n)
    ensures Inv(ready, n)
  {
    hide Step, LocksOk, StateOk, WaitOk;
    LockKept(ready, m, l, n);
    forall q: nat | q < |n.procs| ensures Good(ready, n, q) {
      StateKept(ready, m, l, n, q);
      if Going(l) {
        LocksKeptGoing(ready, m, l, n, q);
        WaitKeptGoing(ready, m, l, n, q);
      } else if Own(l) {
        LocksKeptOwn(ready, m, l, n, q);
        WaitKeptOwn(ready, m, l, n, q);
      } else if Waking(l) {
        LocksKeptWake(ready, m, l, n, q);
        WaitKeptWake(ready, m, l, n, q);
      } else {
        LocksKept(ready, m, l, n, q);
        if l.Exec? { WaitKeptExec(ready, m, l, n, q); } else { WaitKeptLk(ready, m, l, n, q); }
      }
    }
  }

  lemma SameProcs<S, K>(ready: (nat, S) -> bool, m: Machine<S, K>, l: Label<S, K>, n: Machine<S, K>)
    requires Step(ready, m, l, n)
    ensures l.p < |m.procs| == |n.procs|
  {
  }

  // ----- runs of a program -----

  /** Nobody holds a lock, nobody sleeps, and all are at the start of the program. */
  ghost predicate Init<S, K>(start: K, m: Machine<S, K>) {
    && m.lk == Nobody && m.debt == iset{} && m.credit == iset{}
    && forall q :: 0 <= q < |m.procs| ==>
         && m.procs[q].pc.Out? && m.procs[q].state != Sleeping && m.procs[q].lock == Nobody
         && m.procs[q].at == start
  }

  /** The process executes an instruction that its program has where it is. */
  ghost predicate Obeys<S, K>(prog: (nat, K, S, Instr<S>, K) -> bool, m: Machine<S, K>, l: Label<S, K>) {
    l.Exec? ==> l.p < |m.procs| && prog(l.p, m.procs[l.p].at, m.s, l.i, l.at)
  }

  /** ms are the machines of a run whose steps have the labels ls. */
  ghost predicate Run<S, K>(ready: (nat, S) -> bool, prog: (nat, K, S, Instr<S>, K) -> bool, start: K,
                            ms: seq<Machine<S, K>>, ls: seq<Label<S, K>>) {
    && |ms| == |ls| + 1 && Init(start, ms[0])
    && forall i :: 0 <= i < |ls| ==> Step(ready, ms[i], ls[i], ms[i + 1]) && Obeys(prog, ms[i], ls[i])
  }

  lemma RunPrefix<S, K>(ready: (nat, S) -> bool, prog: (nat, K, S, Instr<S>, K) -> bool, start: K,
                        ms: seq<Machine<S, K>>, ls: seq<Label<S, K>>, k: nat)
    requires Run(ready, prog, start, ms, ls) && k < |ms|
    ensures Run(ready, prog, start, ms[..k + 1], ls[..k])
  {
    hide Step, Obeys;
    var ns, ks := ms[..k + 1], ls[..k];
    forall i | 0 <= i < |ks| ensures Step(ready, ns[i], ks[i], ns[i + 1]) && Obeys(prog, ns[i], ks[i]) {
      assert Step(ready, ms[i], ls[i], ms[i + 1]) && Obeys(prog, ms[i], ls[i]);
    }
  }

  /** One more step. */
  lemma RunMore<S, K>(ready: (nat, S) -> bool, prog: (nat, K, S, Instr<S>, K) -> bool, start: K,
                      ms: seq<Machine<S, K>>, ls: seq<Label<S, K>>, l: Label<S, K>, n: Machine<S, K>)
    requires Run(ready, prog, start, ms, ls) && Step(ready, ms[|ls|], l, n) && Obeys(prog, ms[|ls|], l)
    ensures Run(ready, prog, start, ms + [n], ls + [l])
  {
    hide Step, Obeys;
    var ns, ks := ms + [n], ls + [l];
    forall i | 0 <= i < |ks| ensures Step(ready, ns[i], ks[i], ns[i + 1]) && Obeys(prog, ns[i], ks[i]) {
      if i < |ls| { assert Step(ready, ms[i], ls[i], ms[i + 1]) && Obeys(prog, ms[i], ls[i]); }
    }
  }

  /** Where a process can execute an instruction: holding lk or not, as the instruction demands. */
  predicate Fit<S>(lk: Holder, pc: Pc, i: Instr<S>) {
    if i.Lock? then pc.Out? && lk == Nobody else if i.Bypass? then pc.Out? else pc.In?
  }

  /** No instruction of a program waits for anything but lk. */
  lemma CanExecute<S, K>(ready: (nat, S) -> bool, prog: (nat, K, S, Instr<S>, K) -> bool, m: Machine<S, K>, p: nat,
                         i: Instr<S>, next: K)
    returns (n: Machine<S, K>)
    requires p < |m.procs| && Fit(m.lk, m.procs[p].pc, i) && prog(p, m.procs[p].at, m.s, i, next)
    ensures Step(ready, m, Exec(p, i, next), n) && Obeys(prog, m, Exec(p, i, next))
  {
    match i
    case Lock => n := Move(m, p, next, In).(lk := By(p));
    case Unlock => n := Move(m, p, next, Out).(lk := Nobody, credit := iset{});
    case Update(t) => n := Move(m, p, next, In).(s := t, debt := m.debt + (Newly(ready, m.s, t) - m.credit));
    case Bypass(t) => n := Move(m, p, next, Out).(s := t, debt := m.debt + Newly(ready, m.s, t));
    case SleepOn(c) => n := Move(m, p, next, Locking(c)).(debt := m.debt + (if ready(c, m.s) then iset{c} else iset{}));
    case WakeUp(c) => n := Move(m, p, next, Wake(c, 0));
  }

  lemma {:induction false} RunKeeps<S, K>(ready: (nat, S) -> bool, prog: (nat, K, S, Instr<S>, K) -> bool, start: K,
                                          ms: seq<Machine<S, K>>, ls: seq<Label<S, K>>, k: nat)
    requires Run(ready, prog, start, ms, ls) && k < |ms|
    ensures Inv(ready, ms[k])
  {
    hide Step, Obeys;
    if k == 0 {
      assert Inv(ready, ms[0]);
    } else {
      RunKeeps(ready, prog, start, ms, ls, k - 1);
      assert Step(ready, ms[k - 1], ls[k - 1], ms[k - 1 + 1]);
      StepKeeps(ready, ms[k - 1], ls[k - 1], ms[k]);
    }
  }

  /**
    In every state of every run of every program, a process that sleeps on a channel whose
    condition holds is owed a wakeup.
  */
  lemma SleepersOwed<S, K>(ready: (nat, S) -> bool, prog: (nat, K, S, Instr<S>, K) -> bool, start: K,
                           ms: seq<Machine<S, K>>, ls: seq<Label<S, K>>, k: nat, q: nat)
    requires Run(ready, prog, start, ms, ls) && k < |ms| && q < |ms[k].procs|
    requires ms[k].procs[q].state == Sleeping && ready(ms[k].procs[q].chan, ms[k].s)
    ensures ms[k].procs[q].chan in ms[k].debt
  {
    hide Step, Run;
    RunKeeps(ready, prog, start, ms, ls, k);
    assert Good(ready, ms[k], q);
  }

  // ----- who is woken -----

  /** Step l wakes process q: kill(q), or a wakeup() of the channel that q sleeps on. */
  ghost predicate Wakes<S, K>(m: Machine<S, K>, l: Label<S, K>, q: nat) {
    && l.p < |m.procs| && q < |m.procs| && m.procs[q].state == Sleeping
    && ((l.Kill? && l.p == q)
        || (l.WakeOther? && m.procs[l.p].pc.WakeLocked? && m.procs[l.p].pc.k == q && m.procs[l.p].pc.c == m.procs[q].chan))
  }

  /**
    A step changes whether a process runs, can run or sleeps only if it is the process's own way into
    or out of sleep(), or wakes it: wakeup() of another channel leaves a sleeper asleep.
  */
  lemma StateChange<S, K>(ready: (nat, S) -> bool, m: Machine<S, K>, l: Label<S, K>, n: Machine<S, K>, q: nat)
    requires Step(ready, m, l, n) && q < |m.procs|
    ensures q < |n.procs|
    ensures if Wakes(m, l, q) then n.procs[q].state == Runnable
            else if l == SetState(q) then n.procs[q].state == Sleeping
            else if l == Resume(q) then m.procs[q].state == Runnable && n.procs[q].state == Running
            else n.procs[q].state == m.procs[q].state
  {
  }

  /** Process q is in sleep(c) with its state set. */
  predicate Down<K>(me: Proc<K>, c: nat) { me.pc == Marked(c) || me.pc == Gone(c) }

  /** From state i + 1, in which it had just gone to sleep on c, up to state k process q was in sleep(). */
  ghost predicate Since<S, K>(ms: seq<Machine<S, K>>, ls: seq<Label<S, K>>, i: nat, k: nat, q: nat, c: nat) {
    && i < k < |ms| && |ms| == |ls| + 1 && ls[i] == SetState(q)
    && forall j :: i < j <= k ==> q < |ms[j].procs| && Down(ms[j].procs[q], c) && ms[j].procs[q].chan == c
  }

  lemma DownStep<S, K>(ready: (nat, S) -> bool, m: Machine<S, K>, l: Label<S, K>, n: Machine<S, K>, q: nat, c: nat)
    requires Inv(ready, m) && Step(ready, m, l, n) && q < |m.procs| && q < |n.procs| && Down(n.procs[q], c)
    ensures n.procs[q].chan == c
    ensures l == SetState(q) ==> n.procs[q].state == Sleeping
    ensures l != SetState(q) ==> Down(m.procs[q], c) && l != Resume(q)
  {
    hide WaitOk;
    assert Good(ready, m, q) && Good(ready, m, l.p);
  }

  /** A process in sleep() went to sleep at some step, and either sleeps still or was woken since. */
  lemma {:induction false} DownSince<S, K>(ready: (nat, S) -> bool, prog: (nat, K, S, Instr<S>, K) -> bool, start: K,
                                           ms: seq<Machine<S, K>>, ls: seq<Label<S, K>>, k: nat, q: nat, c: nat)
    returns (i: nat, j: nat)
    requires Run(ready, prog, start, ms, ls) && k < |ms| && q < |ms[k].procs| && Down(ms[k].procs[q], c)
    ensures Since(ms, ls, i, k, q, c)
    ensures ms[k].procs[q].state == Sleeping || (i < j < k && Wakes(ms[j], ls[j], q))
  {
    hide Step, Obeys, Inv;
    i, j := 0, 0;
    if k > 0 {
      var m, l, n := ms[k - 1], ls[k - 1], ms[k];
      assert Step(ready, m, l, ms[k - 1 + 1]);
      RunKeeps(ready, prog, start, ms, ls, k - 1);
      SameProcs(ready, m, l, n);
      DownStep(ready, m, l, n, q, c);
      StateChange(ready, m, l, n, q);
      if l == SetState(q) {
        i, j := k - 1, 0;
      } else {
        i, j := DownSince(ready, prog, start, ms, ls, k - 1, q, c);
        if Wakes(m, l, q) { j := k - 1; }
      }
    }
  }

  /**
    Nobody returns from sleep() unasked: a process that is scheduled again after sleep(c) was woken,
    since it went to sleep, by a wakeup() of that channel or by kill().
  */
  lemma ResumeIsWoken<S, K>(ready: (nat, S) -> bool, prog: (nat, K, S, Instr<S>, K) -> bool, start: K,
                            ms: seq<Machine<S, K>>, ls: seq<Label<S, K>>, k: nat, q: nat)
    returns (i: nat, j: nat)
    requires Run(ready, prog, start, ms, ls) && k < |ls| && ls[k] == Resume(q)
    ensures q < |ms[k].procs| && ms[k].procs[q].pc.Gone? && i < j < k
    ensures Since(ms, ls, i, k, q, ms[k].procs[q].pc.c) && Wakes(ms[j], ls[j], q)
  {
    hide Obeys, Init, ExecStep;
    assert Step(ready, ms[k], ls[k], ms[k + 1]);
    i, j := DownSince(ready, prog, start, ms, ls, k, q, ms[k].procs[q].pc.c);
  }

  /** A process that has called sleep() can go to sleep, if nobody else holds its lock. */
  lemma FallAsleep<S, K>(ready: (nat, S) -> bool, prog: (nat, K, S, Instr<S>, K) -> bool, start: K,
                         ms: seq<Machine<S, K>>, ls: seq<Label<S, K>>, p: nat)
    returns (ns: seq<Machine<S, K>>, ks: seq<Label<S, K>>)
    requires Run(ready, prog, start, ms, ls) && p < |ms[|ls|].procs|
    requires ms[|ls|].procs[p].pc.Locking? && ms[|ls|].procs[p].lock == Nobody
    ensures Run(ready, prog, start, ns, ks) && ns[0] == ms[0]
    ensures var m, me := ms[|ls|], ms[|ls|].procs[p];
            ns[|ks|] == m.(lk := Nobody, credit := iset{},
                           procs := m.procs[p := me.(pc := Gone(me.pc.c), state := Sleeping, chan := me.pc.c)])
  {
    hide Init, ExecStep;
    var m, me := ms[|ls|], ms[|ls|].procs[p];
    var c := me.pc.c;
    ns, ks := More(ready, prog, start, ms, ls, LockSelf(p), m.(procs := m.procs[p := me.(pc := Locked(c), lock := By(p))]));
    ns, ks := More(ready, prog, start, ns, ks, ReleaseLk(p),
                   m.(lk := Nobody, credit := iset{}, procs := m.procs[p := me.(pc := Released(c), lock := By(p))]));
    ns, ks := More(ready, prog, start, ns, ks, SetChan(p),
                   m.(lk := Nobody, credit := iset{}, procs := m.procs[p := me.(pc := Named(c), lock := By(p), chan := c)]));
    ns, ks := More(ready, prog, start, ns, ks, SetState(p),
                   m.(lk := Nobody, credit := iset{},
                      procs := m.procs[p := me.(pc := Marked(c), lock := By(p), chan := c, state := Sleeping)]));
    ns, ks := More(ready, prog, start, ns, ks, Switch(p),
                   m.(lk := Nobody, credit := iset{},
                      procs := m.procs[p := me.(pc := Gone(c), lock := Nobody, chan := c, state := Sleeping)]));
  }

  lemma More<S, K>(ready: (nat, S) -> bool, prog: (nat, K, S, Instr<S>, K) -> bool, start: K,
                   ms: seq<Machine<S, K>>, ls: seq<Label<S, K>>, l: Label<S, K>, n: Machine<S, K>)
    returns (ns: seq<Machine<S, K>>, ks: seq<Label<S, K>>)
    requires Run(ready, prog, start, ms, ls) && Step(ready, ms[|ls|], l, n) && Obeys(prog, ms[|ls|], l)
    ensures ns == ms + [n] && ks == ls + [l] && Run(ready, prog, start, ns, ks) && ns[0] == ms[0] && ns[|ks|] == n
  {
    hide Step, Obeys, Init;
    RunMore(ready, prog, start, ms, ls, l, n);
    ns, ks := ms + [n], ls + [l];
  }

  // ----- programs that pay their debts -----

  /** The process is in sleep(). */
  predicate Asleep(pc: Pc) {
    || pc.Locking? || pc.Locked? || pc.Released? || pc.Named? || pc.Marked? || pc.Gone? || pc.Back? || pc.Tidy?
    || pc.Retry?
  }

  /** The channel of the wakeup() that a process is in the middle of. */
  function Calling(pc: Pc): iset<nat> { if pc.Wake? || pc.WakeLocked? then iset{pc.c} else iset{} }

  /**
    A discipline gives each point of a program the channels it has yet to wake before it gives up
    lk, and those it has woken since it got lk.
  */
  datatype Dues<!K> = Dues(owed: K -> iset<nat>, paid: K -> iset<nat>)

  ghost predicate NothingDue<K>(d: Dues<K>, at: K) { d.owed(at) == iset{} && d.paid(at) == iset{} }

  /** An instruction that keeps to the discipline. */
  ghost predicate Honest<S, K>(ready: (nat, S) -> bool, d: Dues<K>, s: S, at: K, i: Instr<S>, next: K) {
    match i
    case Lock => d.paid(next) == iset{}
    case Unlock => d.owed(at) == iset{}
    case Update(t) => d.owed(at) + (Newly(ready, s, t) - d.paid(at)) <= d.owed(next) && d.paid(next) <= d.paid(at)
    case Bypass(t) => Newly(ready, s, t) == iset{}
    case SleepOn(c) => d.owed(at) == iset{} && !ready(c, s) && NothingDue(d, next)
    case WakeUp(c) => d.owed(at) <= d.owed(next) + iset{c} && d.paid(next) <= d.paid(at) + iset{c}
  }

  ghost predicate HonestStep<S, K>(ready: (nat, S) -> bool, d: Dues<K>, m: Machine<S, K>, l: Label<S, K>) {
    l.Exec? ==> l.p < |m.procs| && Honest(ready, d, m.s, m.procs[l.p].at, l.i, l.at)
  }

  /** Only the holder of lk has debts, and only those its place in the program allows. */
  ghost predicate Solvent<S, K>(d: Dues<K>, m: Machine<S, K>) {
    && (m.lk == Nobody ==> m.debt == iset{})
    && (m.lk.By? && m.lk.p < |m.procs| ==>
          var h := m.procs[m.lk.p];
          m.debt <= d.owed(h.at) + Calling(h.pc) && d.paid(h.at) <= m.credit + Calling(h.pc))
    && (forall q :: 0 <= q < |m.procs| && Asleep(m.procs[q].pc) ==> NothingDue(d, m.procs[q].at))
  }

  lemma SolventExec<S, K>(ready: (nat, S) -> bool, d: Dues<K>, m: Machine<S, K>, l: Label<S, K>, n: Machine<S, K>)
    requires Inv(ready, m) && Solvent(d, m) && Step(ready, m, l, n) && HonestStep(ready, d, m, l) && l.Exec?
    ensures Solvent(d, n)
  {
    hide WaitOk, StateOk;
    assert Good(ready, m, l.p);
  }

  lemma SolventElse<S, K>(ready: (nat, S) -> bool, d: Dues<K>, m: Machine<S, K>, l: Label<S, K>, n: Machine<S, K>)
    requires Inv(ready, m) && Solvent(d, m) && Step(ready, m, l, n) && !l.Exec?
    ensures Solvent(d, n)
  {
    hide WaitOk, StateOk, ExecStep;
    assert Good(ready, m, l.p);
    if l.WakeOther? { assert Good(ready, m, m.procs[l.p].pc.k); }
  }

  lemma {:induction false} SolventRun<S, K>(ready: (nat, S) -> bool, prog: (nat, K, S, Instr<S>, K) -> bool, start: K,
                                            d: Dues<K>, ms: seq<Machine<S, K>>, ls: seq<Label<S, K>>, k: nat)
    requires Run(ready, prog, start, ms, ls) && k < |ms|
    requires forall i :: 0 <= i < k ==> HonestStep(ready, d, ms[i], ls[i])
    ensures Solvent(d, ms[k])
  {
    hide Step, Obeys, HonestStep, Inv;
    if k > 0 {
      SolventRun(ready, prog, start, d, ms, ls, k - 1);
      RunKeeps(ready, prog, start, ms, ls, k - 1);
      assert Step(ready, ms[k - 1], ls[k - 1], ms[k - 1 + 1]) && HonestStep(ready, d, ms[k - 1], ls[k - 1]);
      if ls[k - 1].Exec? {
        SolventExec(ready, d, ms[k - 1], ls[k - 1], ms[k]);
      } else {
        SolventElse(ready, d, ms[k - 1], ls[k - 1], ms[k]);
      }
    }
  }

  /**
    No lost wakeup: in a run whose instructions keep to a discipline, when lk is free no process
    sleeps on a channel whose condition holds.
  */
  lemma NoLostWakeup<S, K>(ready: (nat, S) -> bool, prog: (nat, K, S, Instr<S>, K) -> bool, start: K, d: Dues<K>,
                           ms: seq<Machine<S, K>>, ls: seq<Label<S, K>>, k: nat, q: nat)
    requires Run(ready, prog, start, ms, ls) && k < |ms| && ms[k].lk == Nobody && q < |ms[k].procs|
    requires forall i :: 0 <= i < k ==> HonestStep(ready, d, ms[i], ls[i])
    requires ms[k].procs[q].state == Sleeping
    ensures !ready(ms[k].procs[q].chan, ms[k].s)
  {
    hide Step, Run, HonestStep;
    SolventRun(ready, prog, start, d, ms, ls, k);
    if ready(ms[k].procs[q].chan, ms[k].s) { SleepersOwed(ready, prog, start, ms, ls, k, q); }
  }
}
