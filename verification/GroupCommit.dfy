/**
  Group commit (begin_op(), log_write(), end_op() in kernel/log.c) as a client of sleep() and
  wakeup(): log.lock protects the state below, and processes wait in begin_op() on one channel.
*/
module GroupCommit {
  import opened Param
  import opened SleepWakeup

  const CHAN: nat := 1                // &log

  /** What a process is doing: an operation has logged the blocks spent so far. */
  datatype Op = Idle | InOp(spent: set<nat>) | Committing

  /** lh.block[0..lh.n], outstanding, committing, and what each process is doing. */
  datatype Log = Log(blocks: seq<nat>, outstanding: int, committing: bool, ops: seq<Op>)

  /** The test of begin_op(). */
  predicate Admits(s: Log) { !s.committing && |s.blocks| + (s.outstanding + 1) * MAXOPBLOCKS <= LOGSIZE }

  predicate Ready(c: nat, s: Log) { c == CHAN && Admits(s) }

  /** The updates made under log.lock, by process p. */
  datatype Act = Begin | Write(b: nat) | End | CommitEnd

  /** log_write() panics before it looks for the block in the log. */
  predicate Panics(s: Log, size: int) { |s.blocks| >= LOGSIZE || |s.blocks| >= size - 1 || s.outstanding < 1 }

  function Logged(blocks: seq<nat>, b: nat): seq<nat> { if b in blocks then blocks else blocks + [b] }

  predicate Enabled(s: Log, p: nat, a: Act) {
    && p < |s.ops|
    && match a
       case Begin => s.ops[p] == Idle && Admits(s)
       case Write(b) => s.ops[p].InOp? && |s.ops[p].spent + {b}| <= MAXOPBLOCKS
       case End => s.ops[p].InOp?
       case CommitEnd => s.ops[p] == Committing && s.blocks == []
  }

  function Apply(s: Log, p: nat, a: Act): Log
    requires Enabled(s, p, a)
  {
    match a
    case Begin => s.(outstanding := s.outstanding + 1, ops := s.ops[p := InOp({})])
    case Write(b) => s.(blocks := Logged(s.blocks, b), ops := s.ops[p := InOp(s.ops[p].spent + {b})])
    case End =>
      var n := s.outstanding - 1;
      if n == 0 then s.(outstanding := n, committing := true, ops := s.ops[p := Committing])
      else s.(outstanding := n, ops := s.ops[p := Idle])
    case CommitEnd => s.(committing := false, ops := s.ops[p := Idle])
  }

  // ----- the invariant of the log -----

  function Active(ops: seq<Op>): nat {
    if ops == [] then 0 else Active(ops[..|ops| - 1]) + (if ops[|ops| - 1].InOp? then 1 else 0)
  }

  /** Budget that an operation has not used. */
  function Left(o: Op): int { if o.InOp? then MAXOPBLOCKS - |o.spent| else 0 }

  function Unspent(ops: seq<Op>): int {
    if ops == [] then 0 else Unspent(ops[..|ops| - 1]) + Left(ops[|ops| - 1])
  }

  ghost predicate Distinct(blocks: seq<nat>) {
    forall i, j :: 0 <= i < j < |blocks| ==> blocks[i] != blocks[j]
  }

  ghost predicate OpOk(s: Log, p: nat)
    requires p < |s.ops|
  {
    && (s.ops[p].InOp? ==> |s.ops[p].spent| <= MAXOPBLOCKS && forall b :: b in s.ops[p].spent ==> b in s.blocks)
    && (s.ops[p] == Committing ==> s.committing)
  }

  ghost predicate OneCommitter(s: Log) {
    forall p, q :: 0 <= p < |s.ops| && 0 <= q < |s.ops| && s.ops[p] == Committing && s.ops[q] == Committing ==> p == q
  }

  ghost predicate LogOk(s: Log) {
    && s.outstanding == Active(s.ops)
    && |s.blocks| + Unspent(s.ops) <= LOGSIZE
    && Distinct(s.blocks)
    && (forall p: nat :: p < |s.ops| ==> OpOk(s, p))
    && OneCommitter(s)
    && (s.committing ==> s.outstanding == 0)
    && (s.outstanding == 0 && !s.committing ==> s.blocks == [])
  }

  // ----- sums over the processes -----

  lemma {:induction false} ActiveSet(ops: seq<Op>, p: nat, o: Op)
    requires p < |ops|
    ensures Active(ops[p := o]) == Active(ops) - (if ops[p].InOp? then 1 else 0) + (if o.InOp? then 1 else 0)
  {
    var n := |ops| - 1;
    if p < n {
      ActiveSet(ops[..n], p, o);
      assert ops[p := o][..n] == ops[..n][p := o];
    } else {
      assert ops[p := o][..n] == ops[..n];
    }
  }

  lemma {:induction false} UnspentSet(ops: seq<Op>, p: nat, o: Op)
    requires p < |ops|
    ensures Unspent(ops[p := o]) == Unspent(ops) - Left(ops[p]) + Left(o)
  {
    var n := |ops| - 1;
    if p < n {
      UnspentSet(ops[..n], p, o);
      assert ops[p := o][..n] == ops[..n][p := o];
    } else {
      assert ops[p := o][..n] == ops[..n];
    }
  }

  /** The unspent budgets are at most ten blocks for each outstanding operation. */
  lemma {:induction false} UnspentBound(ops: seq<Op>)
    ensures Unspent(ops) <= Active(ops) * MAXOPBLOCKS
  {
    if ops != [] { UnspentBound(ops[..|ops| - 1]); }
  }

  lemma {:induction false} ActiveMember(ops: seq<Op>, p: nat)
    requires p < |ops| && ops[p].InOp?
    ensures Active(ops) > 0
  {
    if p < |ops| - 1 { ActiveMember(ops[..|ops| - 1], p); }
  }

  /** When nothing is outstanding no budget is. */
  lemma {:induction false} NoneActive(ops: seq<Op>)
    requires Active(ops) == 0
    ensures Unspent(ops) == 0
  {
    if ops != [] { NoneActive(ops[..|ops| - 1]); }
  }

  // ----- every update keeps the invariant -----

  lemma BeginKeeps(s: Log, p: nat)
    requires LogOk(s) && Enabled(s, p, Begin)
    ensures LogOk(Apply(s, p, Begin))
  {
    hide Active, Unspent;
    ActiveSet(s.ops, p, InOp({}));
    UnspentSet(s.ops, p, InOp({}));
    UnspentBound(s.ops);
    var t := Apply(s, p, Begin);
    forall q: nat | q < |t.ops| ensures OpOk(t, q) { assert OpOk(s, q); }
  }

  lemma WriteKeeps(s: Log, p: nat, b: nat)
    requires LogOk(s) && Enabled(s, p, Write(b))
    ensures LogOk(Apply(s, p, Write(b)))
  {
    hide Active, Unspent;
    var o := InOp(s.ops[p].spent + {b});
    ActiveSet(s.ops, p, o);
    UnspentSet(s.ops, p, o);
    ActiveMember(s.ops, p);
    assert OpOk(s, p);
    assert b !in s.ops[p].spent ==> |o.spent| == |s.ops[p].spent| + 1;
    assert b in s.ops[p].spent ==> o == s.ops[p];
    var t := Apply(s, p, Write(b));
    forall q: nat | q < |t.ops| ensures OpOk(t, q) { assert OpOk(s, q); }
  }

  lemma EndKeeps(s: Log, p: nat)
    requires LogOk(s) && Enabled(s, p, End)
    ensures LogOk(Apply(s, p, End)) && !s.committing
  {
    hide Active, Unspent;
    var t := Apply(s, p, End);
    ActiveSet(s.ops, p, t.ops[p]);
    UnspentSet(s.ops, p, t.ops[p]);
    ActiveMember(s.ops, p);
    assert OpOk(s, p);
    forall q: nat | q < |t.ops| ensures OpOk(t, q) && (q != p ==> t.ops[q] != Committing) { assert OpOk(s, q); }
  }

  lemma CommitEndKeeps(s: Log, p: nat)
    requires LogOk(s) && Enabled(s, p, CommitEnd)
    ensures LogOk(Apply(s, p, CommitEnd))
  {
    hide Active, Unspent;
    ActiveSet(s.ops, p, Idle);
    UnspentSet(s.ops, p, Idle);
    assert OpOk(s, p);
    NoneActive(s.ops);
    var t := Apply(s, p, CommitEnd);
    forall q: nat | q < |t.ops| ensures OpOk(t, q) { assert OpOk(s, q); }
  }

  lemma ActKeeps(s: Log, p: nat, a: Act)
    requires LogOk(s) && Enabled(s, p, a)
    ensures LogOk(Apply(s, p, a))
  {
    hide LogOk, Enabled, Apply;
    match a
    case Begin => BeginKeeps(s, p);
    case Write(b) => WriteKeeps(s, p, b);
    case End => EndKeeps(s, p);
    case CommitEnd => CommitEndKeeps(s, p);
  }

  /** commit() empties the log without log.lock, but only while no operation can begin. */
  lemma ClearKeeps(s: Log, p: nat)
    requires LogOk(s) && p < |s.ops| && s.ops[p] == Committing
    ensures LogOk(s.(blocks := [])) && forall c: nat :: Ready(c, s.(blocks := [])) == Ready(c, s)
  {
    hide Active, Unspent;
    assert OpOk(s, p);
    NoneActive(s.ops);
    var t := s.(blocks := []);
    forall q: nat | q < |t.ops| ensures OpOk(t, q) {
      assert OpOk(s, q);
      if s.ops[q].InOp? { ActiveMember(s.ops, q); }
    }
  }

  /** Only the two updates after which end_op() calls wakeup() let an operation begin. */
  lemma WakeupsSuffice(s: Log, p: nat, a: Act)
    requires LogOk(s) && Enabled(s, p, a) && Admits(Apply(s, p, a)) && !Admits(s)
    ensures a == CommitEnd || (a == End && Apply(s, p, a).outstanding > 0)
  {
  }

  // ----- panics -----

  lemma {:induction false} UnspentAtLeast(ops: seq<Op>, p: nat)
    requires p < |ops| && forall q :: 0 <= q < |ops| ==> Left(ops[q]) >= 0
    ensures Unspent(ops) >= Left(ops[p])
  {
    UnspentSet(ops, p, Idle);
    UnspentNonneg(ops[p := Idle]);
  }

  lemma {:induction false} UnspentNonneg(ops: seq<Op>)
    requires forall q :: 0 <= q < |ops| ==> Left(ops[q]) >= 0
    ensures Unspent(ops) >= 0
  {
    if ops != [] { UnspentNonneg(ops[..|ops| - 1]); }
  }

  /**
    For a log of any size, log_write() within its budget panics exactly when the blocks fill the log
    on disk or number LOGSIZE. For a block that is not in the log yet only the first can happen, and
    in a log of more than LOGSIZE blocks it cannot.
  */
  lemma PanicExactly(s: Log, p: nat, b: nat, size: int)
    requires LogOk(s) && Enabled(s, p, Write(b))
    ensures Panics(s, size) <==> |s.blocks| >= size - 1 || |s.blocks| == LOGSIZE
    ensures b !in s.blocks ==> (Panics(s, size) <==> |s.blocks| >= size - 1) && |s.blocks| < LOGSIZE
  {
    hide Active, Unspent;
    assert OpOk(s, p);
    forall q | 0 <= q < |s.ops| ensures Left(s.ops[q]) >= 0 { assert OpOk(s, q); }
    UnspentAtLeast(s.ops, p);
    ActiveMember(s.ops, p);
    if b !in s.blocks { assert b !in s.ops[p].spent; }
  }

  // ----- the code -----

  type LogMachine = Machine<Log, Ctl>

  /** Where a process is in begin_op(), log_write() and end_op(). */
  datatype Ctl =
    | Free                          // in no operation
    | Beginning                     // in the loop of begin_op()
    | Began                         // about to leave begin_op()
    | Working                       // between begin_op() and end_op()
    | Writing(b: nat)               // in log_write()
    | Wrote                         // about to leave log_write()
    | Ending                        // in end_op()
    | EndOwes                       // others are outstanding: about to call wakeup()
    | LastOne                       // committing set: about to release log.lock
    | InCommit                      // in commit()
    | Cleared                       // commit() is done
    | Finishing                     // has log.lock again
    | FinishOwes                    // committing cleared: about to call wakeup()
    | Leaving                       // about to leave end_op()

  /** The three functions, called in order and within the budget of an operation. */
  ghost predicate Prog(p: nat, at: Ctl, s: Log, i: Instr<Log>, next: Ctl) {
    match at
    case Free => i == Lock && next == Beginning
    case Beginning => if Admits(s) then Does(p, s, Begin, i) && next == Began else i == SleepOn(CHAN) && next == Beginning
    case Began => i == Unlock && next == Working
    case Working => i == Lock && (next == Ending || (next.Writing? && Enabled(s, p, Write(next.b))))
    case Writing(b) => Does(p, s, Write(b), i) && next == Wrote
    case Wrote => i == Unlock && next == Working
    case Ending => Does(p, s, End, i) && next == if s.outstanding == 1 then LastOne else EndOwes
    case EndOwes => i == WakeUp(CHAN) && next == Leaving
    case LastOne => i == Unlock && next == InCommit
    case InCommit => i == Bypass(s.(blocks := [])) && next == Cleared
    case Cleared => i == Lock && next == Finishing
    case Finishing => Does(p, s, CommitEnd, i) && next == FinishOwes
    case FinishOwes => i == WakeUp(CHAN) && next == Leaving
    case Leaving => i == Unlock && next == Free
  }

  predicate Does(p: nat, s: Log, a: Act, i: Instr<Log>) { Enabled(s, p, a) && i == Update(Apply(s, p, a)) }

  ghost predicate LogRun(ms: seq<LogMachine>, ls: seq<Label<Log, Ctl>>) {
    Run(Ready, Prog, Free, ms, ls) && LogOk(ms[0].s) && ms[0].s == Log([], 0, false, ms[0].s.ops) && Fresh(ms[0])
  }

  ghost predicate Fresh(m: LogMachine) {
    |m.s.ops| == |m.procs| && forall q :: 0 <= q < |m.s.ops| ==> m.s.ops[q] == Idle
  }

  /** What the log records of a process, as its place in the code says. */
  ghost predicate PlaceOk(m: LogMachine, q: nat)
    requires q < |m.procs| && q < |m.s.ops|
  {
    var me, op := m.procs[q], m.s.ops[q];
    && (match me.at
        case Free => op == Idle
        case Beginning => op == Idle
        case Began => op.InOp?
        case Working => op.InOp?
        case Writing(b) => Enabled(m.s, q, Write(b))
        case Wrote => op.InOp?
        case Ending => op.InOp?
        case EndOwes => op == Idle
        case LastOne => op == Committing
        case InCommit => op == Committing
        case Cleared => op == Committing && m.s.blocks == []
        case Finishing => op == Committing && m.s.blocks == []
        case FinishOwes => op == Idle
        case Leaving => op == Idle)
    && (me.pc.Out? <==> me.at == Free || me.at == Working || me.at == InCommit || me.at == Cleared)
    && (Asleep(me.pc) ==> me.at == Beginning && me.pc.c == CHAN)
    && (me.pc.Wake? || me.pc.WakeLocked? ==> me.at == Leaving)
  }

  ghost predicate PlacesOk(m: LogMachine) {
    |m.s.ops| == |m.procs| && forall q: nat {:trigger PlaceOk(m, q)} :: q < |m.procs| ==> PlaceOk(m, q)
  }

  /** The act of an instruction that updates the log. */
  function ActOf(at: Ctl): Act {
    if at == Beginning then Begin else if at.Writing? then Write(at.b) else if at == Ending then End else CommitEnd
  }

  lemma UpdateIs(m: LogMachine, l: Label<Log, Ctl>)
    requires Obeys(Prog, m, l) && l.Exec? && l.i.Update?
    ensures l.p < |m.procs| && Does(l.p, m.s, ActOf(m.procs[l.p].at), l.i)
  {
  }

  lemma StateFollows(m: LogMachine, l: Label<Log, Ctl>, n: LogMachine)
    requires LogOk(m.s) && PlacesOk(m) && Step(Ready, m, l, n) && Obeys(Prog, m, l)
    ensures LogOk(n.s)
  {
    hide LogOk, Enabled, Apply, Ready;
    if l.Exec? && l.i.Update? {
      UpdateIs(m, l);
      ActKeeps(m.s, l.p, ActOf(m.procs[l.p].at));
    } else if l.Exec? && l.i.Bypass? {
      assert PlaceOk(m, l.p);
      ClearKeeps(m.s, l.p);
    }
  }

  /** While one process commits, no other is in an operation. */
  lemma CommitsAlone(s: Log, p: nat, q: nat)
    requires LogOk(s) && p < |s.ops| && q < |s.ops| && s.ops[p] == Committing
    ensures !s.ops[q].InOp? && (s.ops[q] == Committing ==> q == p)
  {
    hide Active;
    assert OpOk(s, p);
    if s.ops[q].InOp? { ActiveMember(s.ops, q); }
  }

  lemma PlaceSelf(m: LogMachine, l: Label<Log, Ctl>, n: LogMachine)
    requires LogOk(m.s) && PlacesOk(m) && Step(Ready, m, l, n) && Obeys(Prog, m, l) && l.Exec?
    ensures |n.s.ops| == |n.procs| == |m.procs| && PlaceOk(n, l.p)
  {
    hide LogOk, Ready;
    assert PlaceOk(m, l.p);
    if m.procs[l.p].at == Ending { Outstanding(m.s, l.p); }
  }

  lemma Outstanding(s: Log, p: nat)
    requires LogOk(s) && p < |s.ops| && s.ops[p].InOp?
    ensures s.outstanding >= 1
  {
    hide Active;
    ActiveMember(s.ops, p);
  }

  /** An update leaves what other processes do alone, and an empty log while one of them commits. */
  lemma ActSpares(s: Log, p: nat, a: Act, q: nat)
    requires LogOk(s) && Enabled(s, p, a) && q < |s.ops| && q != p
    ensures var t := Apply(s, p, a);
            |t.ops| == |s.ops| && t.ops[q] == s.ops[q] && (s.ops[q] == Committing && s.blocks == [] ==> t.blocks == [])
  {
    hide LogOk;
    if s.ops[q] == Committing { CommitsAlone(s, q, p); }
  }

  lemma PlaceOther(m: LogMachine, l: Label<Log, Ctl>, n: LogMachine, q: nat)
    requires LogOk(m.s) && PlacesOk(m) && Step(Ready, m, l, n) && Obeys(Prog, m, l) && l.Exec? && q < |m.procs| && q != l.p
    ensures |n.s.ops| == |n.procs| == |m.procs| && PlaceOk(n, q)
  {
    hide LogOk, Ready, Apply, Prog;
    assert PlaceOk(m, q) && PlaceOk(m, l.p);
    if l.i.Update? {
      UpdateIs(m, l);
      ActSpares(m.s, l.p, ActOf(m.procs[l.p].at), q);
    } else if l.i.Bypass? {
      BypassIs(m, l);
    }
  }

  lemma BypassIs(m: LogMachine, l: Label<Log, Ctl>)
    requires Obeys(Prog, m, l) && l.Exec? && l.i.Bypass?
    ensures l.p < |m.procs| && l.i == Bypass(m.s.(blocks := []))
  {
  }

  lemma PlaceElse(m: LogMachine, l: Label<Log, Ctl>, n: LogMachine, q: nat)
    requires PlacesOk(m) && Step(Ready, m, l, n) && !l.Exec? && q < |m.procs|
    ensures |n.s.ops| == |n.procs| == |m.procs| && PlaceOk(n, q)
  {
    hide Ready, ExecStep;
    assert PlaceOk(m, l.p) && PlaceOk(m, q);
  }

  lemma PlacesFollow(m: LogMachine, l: Label<Log, Ctl>, n: LogMachine)
    requires LogOk(m.s) && PlacesOk(m) && Step(Ready, m, l, n) && Obeys(Prog, m, l)
    ensures PlacesOk(n)
  {
    hide LogOk, Step, Obeys, PlaceOk;
    SameProcs(Ready, m, l, n);
    if l.Exec? { PlaceSelf(m, l, n); } else { PlaceElse(m, l, n, l.p); }
    forall q: nat | q < |n.procs| ensures PlaceOk(n, q) {
      if !l.Exec? { PlaceElse(m, l, n, q); } else if q != l.p { PlaceOther(m, l, n, q); }
    }
  }

  /** In every state of every run the log is in order, and every process where the code says. */
  lemma {:induction false} LogSafe(ms: seq<LogMachine>, ls: seq<Label<Log, Ctl>>, k: nat)
    requires LogRun(ms, ls) && k < |ms|
    ensures LogOk(ms[k].s) && PlacesOk(ms[k])
  {
    hide LogOk, Step, Obeys;
    if k > 0 {
      LogSafe(ms, ls, k - 1);
      assert Step(Ready, ms[k - 1], ls[k - 1], ms[k - 1 + 1]) && Obeys(Prog, ms[k - 1], ls[k - 1]);
      StateFollows(ms[k - 1], ls[k - 1], ms[k]);
      PlacesFollow(ms[k - 1], ls[k - 1], ms[k]);
    } else {
      forall q: nat | q < |ms[0].procs| ensures PlaceOk(ms[0], q) {}
    }
  }

  // ----- sleeping in begin_op() -----

  /** end_op() owes a wakeup after each of its two updates that can let an operation begin. */
  ghost function Due(): Dues<Ctl> {
    Dues((at: Ctl) => if at == EndOwes || at == FinishOwes then iset{CHAN} else iset{}, (at: Ctl) => iset{})
  }

  lemma PaysItsDebts(m: LogMachine, l: Label<Log, Ctl>)
    requires LogOk(m.s) && PlacesOk(m) && Obeys(Prog, m, l)
    ensures HonestStep(Ready, Due(), m, l)
  {
    hide LogOk, Enabled, Apply, Admits;
    if l.Exec? {
      assert PlaceOk(m, l.p);
      if l.i.Update? {
        UpdateIs(m, l);
        UpdateOwes(m.s, l.p, ActOf(m.procs[l.p].at), m.procs[l.p].at);
      } else if l.i.Bypass? {
        ClearKeeps(m.s, l.p);
      }
    }
  }

  lemma UpdateOwes(s: Log, p: nat, a: Act, at: Ctl)
    requires LogOk(s) && Enabled(s, p, a) && a == ActOf(at)
    ensures Admits(Apply(s, p, a)) && !Admits(s) ==> a == CommitEnd || (a == End && s.outstanding != 1)
  {
    hide LogOk;
    if Admits(Apply(s, p, a)) && !Admits(s) { WakeupsSuffice(s, p, a); }
  }

  /**
    While log.lock is free, whoever sleeps in begin_op() has to: a commit is going on, or the blocks
    logged and a full budget for each operation, its own included, exceed the log.
  */
  lemma SleepersMustWait(ms: seq<LogMachine>, ls: seq<Label<Log, Ctl>>, k: nat, q: nat)
    requires LogRun(ms, ls) && k < |ms| && q < |ms[k].procs| && ms[k].lk == Nobody
    requires ms[k].procs[q].state == Sleeping
    ensures ms[k].s.committing || |ms[k].s.blocks| + (ms[k].s.outstanding + 1) * MAXOPBLOCKS > LOGSIZE
  {
    hide Step, Obeys, LogOk, HonestStep;
    forall i | 0 <= i < k ensures HonestStep(Ready, Due(), ms[i], ls[i]) {
      LogSafe(ms, ls, i);
      assert Obeys(Prog, ms[i], ls[i]);
      PaysItsDebts(ms[i], ls[i]);
    }
    NoLostWakeup(Ready, Prog, Free, Due(), ms, ls, k, q);
    LogSafe(ms, ls, k);
    RunKeeps(Ready, Prog, Free, ms, ls, k);
    assert Good(Ready, ms[k], q) && PlaceOk(ms[k], q);
  }

  /**
    When nothing is outstanding or committing the log is empty, and with log.lock free no process
    is asleep in begin_op().
  */
  lemma IdleLog(ms: seq<LogMachine>, ls: seq<Label<Log, Ctl>>, k: nat, q: nat)
    requires LogRun(ms, ls) && k < |ms| && q < |ms[k].procs|
    requires ms[k].s.outstanding == 0 && !ms[k].s.committing
    ensures ms[k].s.blocks == []
    ensures ms[k].lk == Nobody ==> ms[k].procs[q].state != Sleeping
  {
    hide Step, Obeys, Run;
    LogSafe(ms, ls, k);
    if ms[k].lk == Nobody && ms[k].procs[q].state == Sleeping { SleepersMustWait(ms, ls, k, q); }
  }

  /** Nothing about other operations changes. */
  predicate OthersSame(s: Log, t: Log, p: nat) { |t.ops| == |s.ops| && forall q :: 0 <= q < |s.ops| && q != p ==> t.ops[q] == s.ops[q] }

  /**
    What process p does with the log between s and t. begin_op() adds an operation exactly if no
    commit is going on and the log has room for one more budget, and sleeps otherwise. log_write()
    adds its block unless it is there. end_op() takes the operation away, and starts a commit exactly
    if it was the last one. The commit empties the log and ends.
  */
  ghost predicate Effect(p: nat, at: Ctl, i: Instr<Log>, next: Ctl, s: Log, t: Log) {
    && p < |s.ops| && |t.ops| == |s.ops|
    && match at
       case Beginning =>
         if !s.committing && |s.blocks| + (s.outstanding + 1) * MAXOPBLOCKS <= LOGSIZE then
           && t.outstanding == s.outstanding + 1 && t.blocks == s.blocks && !t.committing
           && OthersSame(s, t, p) && t.ops[p] == InOp({}) && next == Began
         else t == s && i == SleepOn(CHAN) && next == Beginning
       case Writing(b) =>
         && t.outstanding == s.outstanding && t.committing == s.committing && OthersSame(s, t, p)
         && (if b in s.blocks then t.blocks == s.blocks else t.blocks == s.blocks + [b])
         && s.ops[p].InOp? && t.ops[p] == InOp(s.ops[p].spent + {b})
       case Ending =>
         && t.outstanding == s.outstanding - 1 && t.blocks == s.blocks && OthersSame(s, t, p) && s.ops[p].InOp?
         && (t.committing <==> s.outstanding == 1) && t.ops[p] == (if s.outstanding == 1 then Committing else Idle)
       case InCommit => t == s.(blocks := []) && s.committing && s.outstanding == 0
       case Finishing => t == s.(committing := false, ops := s.ops[p := Idle]) && s.committing && s.blocks == []
       case _ => t == s
  }

  lemma ProgExactly(p: nat, at: Ctl, s: Log, i: Instr<Log>, next: Ctl)
    requires Prog(p, at, s, i, next) && LogOk(s) && p < |s.ops|
    requires at == InCommit || at == Finishing ==> s.ops[p] == Committing && (at == Finishing ==> s.blocks == [])
    ensures Effect(p, at, i, next, s, if i.Update? || i.Bypass? then i.t else s)
  {
    hide Active, Unspent;
    assert OpOk(s, p);
    if at == Ending { ActiveAt(s.ops, p); }
  }

  lemma {:induction false} ActiveAt(ops: seq<Op>, p: nat)
    requires p < |ops| && ops[p].InOp?
    ensures Active(ops) >= 1
  {
    if p < |ops| - 1 { ActiveAt(ops[..|ops| - 1], p); }
  }

  lemma ExecState(m: LogMachine, l: Label<Log, Ctl>, n: LogMachine)
    requires Step(Ready, m, l, n) && Obeys(Prog, m, l) && l.Exec?
    ensures l.p < |m.procs| && Prog(l.p, m.procs[l.p].at, m.s, l.i, l.at)
    ensures n.s == if l.i.Update? || l.i.Bypass? then l.i.t else m.s
  {
    hide Prog, Ready;
  }

  /** In every run the three functions do exactly this. */
  lemma ActsExactly(ms: seq<LogMachine>, ls: seq<Label<Log, Ctl>>, k: nat)
    requires LogRun(ms, ls) && k < |ls| && ls[k].Exec?
    ensures ls[k].p < |ms[k].procs|
    ensures Effect(ls[k].p, ms[k].procs[ls[k].p].at, ls[k].i, ls[k].at, ms[k].s, ms[k + 1].s)
  {
    hide Step, Obeys, Prog, LogOk, Effect;
    LogSafe(ms, ls, k);
    assert Step(Ready, ms[k], ls[k], ms[k + 1]) && Obeys(Prog, ms[k], ls[k]);
    ExecState(ms[k], ls[k], ms[k + 1]);
    assert PlaceOk(ms[k], ls[k].p);
    ProgExactly(ls[k].p, ms[k].procs[ls[k].p].at, ms[k].s, ls[k].i, ls[k].at);
  }

  /** The process that holds log.lock, unless it is in sleep() or wakeup(), has an instruction to execute. */
  lemma HolderGoesOn(ms: seq<LogMachine>, ls: seq<Label<Log, Ctl>>, k: nat, p: nat)
    returns (l: Label<Log, Ctl>, n: LogMachine)
    requires LogRun(ms, ls) && k < |ms| && p < |ms[k].procs| && ms[k].procs[p].pc.In?
    ensures l.p == p && LogRun(ms[..k + 1] + [n], ls[..k] + [l])
  {
    hide Step, Obeys, LogOk, Apply;
    LogSafe(ms, ls, k);
    var m := ms[k];
    assert PlaceOk(m, p);
    var i, next := Unlock, Free;
    var a := ActOf(m.procs[p].at);
    match m.procs[p].at {
      case Beginning =>
        if Admits(m.s) { i, next := Update(Apply(m.s, p, a)), Began; } else { i, next := SleepOn(CHAN), Beginning; }
      case Began => next := Working;
      case Writing(_) => i, next := Update(Apply(m.s, p, a)), Wrote;
      case Wrote => next := Working;
      case Ending => i, next := Update(Apply(m.s, p, a)), if m.s.outstanding == 1 then LastOne else EndOwes;
      case EndOwes => i, next := WakeUp(CHAN), Leaving;
      case LastOne => next := InCommit;
      case Finishing => i, next := Update(Apply(m.s, p, a)), FinishOwes;
      case FinishOwes => i, next := WakeUp(CHAN), Leaving;
      case Leaving =>
    }
    n := CanExecute(Ready, Prog, m, p, i, next);
    l := Exec(p, i, next);
    RunPrefix(Ready, Prog, Free, ms, ls, k);
    RunMore(Ready, Prog, Free, ms[..k + 1], ls[..k], l, n);
  }

  // ----- runs that fill the log -----

  function Count(k: nat): (bs: seq<nat>)
    ensures |bs| == k && forall i :: 0 <= i < k ==> bs[i] == i
  {
    if k == 0 then [] else Count(k - 1) + [k - 1]
  }

  function Part(lo: nat, k: nat): (s: set<nat>)
    ensures forall b: nat :: b in s <==> lo <= b < k
    ensures |s| == if k < lo then 0 else k - lo
  {
    if k <= lo then {} else Part(lo, k - 1) + {k - 1}
  }

  function Cap(k: nat, hi: nat): nat { if k < hi then k else hi }

  /** Three operations that have logged blocks 0..k between them. */
  function Filling(k: nat): Log {
    Log(Count(k), 3, false, [InOp(Part(0, Cap(k, 10))), InOp(Part(10, Cap(k, 20))), InOp(Part(20, Cap(k, 30)))])
  }

  /** Operations 0..j have begun on an empty log. */
  function Beginners(j: nat): Log
    requires j <= 3
  {
    Log([], j, false, [if 0 < j then InOp({}) else Idle, if 1 < j then InOp({}) else Idle, if 2 < j then InOp({}) else Idle])
  }

  lemma BeginStep(j: nat)
    requires j < 3
    ensures Enabled(Beginners(j), j, Begin) && Apply(Beginners(j), j, Begin) == Beginners(j + 1)
    ensures Newly(Ready, Beginners(j), Beginners(j + 1)) == iset{}
  {
    assert Beginners(j).ops[j := InOp({})] == Beginners(j + 1).ops;
  }

  lemma {:induction false} AllIdle(ops: seq<Op>)
    requires forall q :: 0 <= q < |ops| ==> ops[q] == Idle
    ensures Active(ops) == 0 && Unspent(ops) == 0
  {
    if ops != [] { AllIdle(ops[..|ops| - 1]); }
  }

  /** Three operations within their budgets fill the log. */
  lemma FillStep(k: nat)
    requires k < LOGSIZE
    ensures Enabled(Filling(k), k / 10, Write(k)) && Apply(Filling(k), k / 10, Write(k)) == Filling(k + 1)
  {
    hide Part, Count;
    var s, t := Filling(k), Filling(k + 1);
    FillMore(k / 10 * 10, k);
    assert Cap(k + 1, 10) == if k < 10 then k + 1 else Cap(k, 10);
    assert Cap(k + 1, 20) == if k < 20 then k + 1 else Cap(k, 20);
    assert s.ops[k / 10] == InOp(Part(k / 10 * 10, k));
    if 10 <= k { assert Part(0, Cap(k, 10)) == Part(0, Cap(k + 1, 10)); }
    if k < 20 { assert Part(20, Cap(k, 30)) == {} == Part(20, Cap(k + 1, 30)); }
    if k < 10 { assert Part(10, Cap(k, 20)) == {} == Part(10, Cap(k + 1, 20)); }
    assert s.ops[k / 10 := InOp(Part(k / 10 * 10, k) + {k})] == t.ops;
  }

  lemma FillMore(lo: nat, k: nat)
    requires lo <= k
    ensures Part(lo, k) + {k} == Part(lo, k + 1) && |Part(lo, k) + {k}| == k + 1 - lo
    ensures Logged(Count(k), k) == Count(k + 1)
  {
  }

  function At(begun: bool): Proc<Ctl> { Proc(if begun then Working else Free, Out, Running, 0, Nobody) }

  /** Three processes with log.lock free, the first j of them between begin_op() and end_op(). */
  function Resting(s: Log, j: nat): LogMachine {
    Machine(s, Nobody, iset{}, iset{}, [At(0 < j), At(1 < j), At(2 < j)])
  }

  /** A process locks log.lock, makes one update that makes nothing ready, and unlocks it. */
  lemma Section(ms: seq<LogMachine>, ls: seq<Label<Log, Ctl>>, p: nat, inside: Ctl, t: Log, done: Ctl, after: Ctl)
    returns (ns: seq<LogMachine>, ks: seq<Label<Log, Ctl>>)
    requires LogRun(ms, ls) && p < |ms[|ls|].procs|
    requires var m := ms[|ls|];
             && m.lk == Nobody && m.credit == iset{} && m.procs[p].pc == Out && Newly(Ready, m.s, t) == iset{}
             && Prog(p, m.procs[p].at, m.s, Lock, inside) && Prog(p, inside, m.s, Update(t), done) && Prog(p, done, t, Unlock, after)
    ensures LogRun(ns, ks) && ms <= ns && ns[|ks|] == Move(ms[|ls|], p, after, Out).(s := t)
  {
    hide Prog, LogOk;
    var m, j := ms[|ls|], |ls|;
    var n1 := Move(m, p, inside, In).(lk := By(p));
    RunMore(Ready, Prog, Free, ms, ls, Exec(p, Lock, inside), n1);
    ns, ks := ms + [n1], ls + [Exec(p, Lock, inside)];
    var n2 := Move(n1, p, done, In).(s := t);
    assert n2.debt == n1.debt + (Newly(Ready, n1.s, t) - n1.credit);
    assert ns[j + 1] == n1;
    RunMore(Ready, Prog, Free, ns, ks, Exec(p, Update(t), done), n2);
    ns, ks := ns + [n2], ks + [Exec(p, Update(t), done)];
    var n3 := Move(n2, p, after, Out).(lk := Nobody, credit := iset{});
    assert ns[j + 2] == n2;
    RunMore(Ready, Prog, Free, ns, ks, Exec(p, Unlock, after), n3);
    ns, ks := ns + [n3], ks + [Exec(p, Unlock, after)];
    assert n3.procs == Move(m, p, after, Out).procs;
    SameStart(ms, ls, ns, ks);
  }

  lemma SameStart(ms: seq<LogMachine>, ls: seq<Label<Log, Ctl>>, ns: seq<LogMachine>, ks: seq<Label<Log, Ctl>>)
    requires LogRun(ms, ls) && Run(Ready, Prog, Free, ns, ks) && |ns| > 0 && |ms| > 0 && ns[0] == ms[0]
    ensures LogRun(ns, ks)
  {
  }

  lemma NobodyBegun()
    ensures LogOk(Beginners(0))
  {
    AllIdle(Beginners(0).ops);
  }

  lemma {:induction false} BeginRun(j: nat) returns (ms: seq<LogMachine>, ls: seq<Label<Log, Ctl>>)
    requires j <= 3
    ensures LogRun(ms, ls) && ms[|ls|] == Resting(Beginners(j), j)
  {
    hide LogOk, Step, Obeys, Ready;
    if j == 0 {
      ms, ls := [Resting(Beginners(0), 0)], [];
      NobodyBegun();
    } else {
      ms, ls := BeginRun(j - 1);
      var p := j - 1;
      BeginStep(p);
      ms, ls := Section(ms, ls, p, Beginning, Beginners(j), Began, Working);
      assert ms[|ls|].procs == Resting(Beginners(j), j).procs;
    }
  }

  lemma AllBegun()
    ensures Beginners(3) == Filling(0)
  {
    assert Beginners(3).ops == Filling(0).ops;
  }

  /** Every stage of the filling log is reached by a run from the empty log. */
  lemma {:induction false} FillRun(k: nat) returns (ms: seq<LogMachine>, ls: seq<Label<Log, Ctl>>)
    requires k <= LOGSIZE
    ensures LogRun(ms, ls) && ms[|ls|] == Resting(Filling(k), 3)
  {
    hide Prog, LogOk, Filling, Ready, Enabled, Apply, Step, Obeys;
    if k == 0 {
      ms, ls := BeginRun(3);
      AllBegun();
    } else {
      ms, ls := FillRun(k - 1);
      FillStep(k - 1);
      var p := (k - 1) / 10;
      WriteProg(p, k - 1);
      ms, ls := Section(ms, ls, p, Writing(k - 1), Filling(k), Wrote, Working);
      assert ms[|ls|].procs == Resting(Filling(k), 3).procs;
    }
  }

  lemma WriteProg(p: nat, k: nat)
    requires k < LOGSIZE && p == k / 10
    ensures Prog(p, Working, Filling(k), Lock, Writing(k)) && Prog(p, Writing(k), Filling(k), Update(Filling(k + 1)), Wrote)
    ensures Prog(p, Wrote, Filling(k + 1), Unlock, Working) && Newly(Ready, Filling(k), Filling(k + 1)) == iset{}
  {
    FillStep(k);
  }

  /** In a log of more than LOGSIZE blocks a run reaches a state in which absorbing a block panics. */
  lemma FullLogPanics(size: int) returns (ms: seq<LogMachine>, ls: seq<Label<Log, Ctl>>)
    requires size > LOGSIZE
    ensures LogRun(ms, ls)
    ensures var s := ms[|ls|].s; Enabled(s, 0, Write(0)) && 0 in s.blocks && Panics(s, size)
  {
    hide LogRun, Filling, Enabled, Panics, Count, Part;
    ms, ls := FillRun(LOGSIZE);
    FullPanics(size);
  }

  lemma FullPanics(size: int)
    requires size > LOGSIZE
    ensures Enabled(Filling(LOGSIZE), 0, Write(0)) && 0 in Filling(LOGSIZE).blocks && Panics(Filling(LOGSIZE), size)
  {
    assert Count(LOGSIZE)[0] == 0;
    assert Part(0, 10) + {0} == Part(0, 10);
  }

  /**
    In a log of at most LOGSIZE blocks, such as mkfs makes, a run reaches a state in which logging
    a new block within the budget panics. With PanicExactly, new blocks never panic if and only if
    the log has more than LOGSIZE blocks.
  */
  lemma SmallLogPanics(size: int) returns (ms: seq<LogMachine>, ls: seq<Label<Log, Ctl>>, p: nat, b: nat)
    requires 1 <= size <= LOGSIZE
    ensures LogRun(ms, ls)
    ensures var s := ms[|ls|].s; Enabled(s, p, Write(b)) && b !in s.blocks && Panics(s, size)
  {
    hide LogRun;
    ms, ls := FillRun(size - 1);
    p, b := (size - 1) / 10, size - 1;
    FillStep(b);
  }
}
