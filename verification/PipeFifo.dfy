/**
  Pipes (kernel/pipe.c): a ring buffer whose 32-bit counters wrap around, shared by readers and
  writers that sleep on &pi->nread and &pi->nwrite.
*/
module PipeFifo {
  import opened SleepWakeup

  const PIPESIZE: nat := 512
  const U32: nat := 0x1_0000_0000
  const NREAD: nat := 1               // the channel &pi->nread
  const NWRITE: nat := 2              // the channel &pi->nwrite

  type Ring = d: seq<char> | |d| == PIPESIZE witness seq(PIPESIZE, _ => 'x')

  datatype Pipe = Pipe(data: Ring, nread: nat, nwrite: nat, readopen: bool, writeopen: bool)

  /** All bytes ever put in, and all bytes ever taken out. */
  datatype Hist = Hist(put: seq<char>, out: seq<char>)

  /** A pipe and its history. */
  datatype St = St(pi: Pipe, h: Hist)

  predicate Empty(pi: Pipe) { pi.nread == pi.nwrite }
  predicate IsFull(pi: Pipe) { pi.nwrite == (pi.nread + PIPESIZE) % U32 }

  /** The bytes between the counters are the last bytes put in. */
  ghost predicate PipeOk(s: St) {
    var pi, h := s.pi, s.h;
    && h.out <= h.put && |h.put| <= |h.out| + PIPESIZE
    && pi.nread == |h.out| % U32 && pi.nwrite == |h.put| % U32
    && forall j: nat {:trigger h.put[j]} :: |h.out| <= j < |h.put| ==> pi.data[j % PIPESIZE] == h.put[j]
  }

  /** A byte goes in at the write counter. */
  function Put(s: St, ch: char): St {
    var pi := s.pi;
    St(pi.(data := pi.data[pi.nwrite % PIPESIZE := ch], nwrite := (pi.nwrite + 1) % U32), s.h.(put := s.h.put + [ch]))
  }

  /** The byte at the read counter. */
  function Next(s: St): char { s.pi.data[s.pi.nread % PIPESIZE] }

  function Get(s: St): St { St(s.pi.(nread := (s.pi.nread + 1) % U32), s.h.(out := s.h.out + [Next(s)])) }

  // ----- the ring across wrap-around -----

  /** The counters tell empty and full from each other and from all else, however often they wrapped. */
  lemma Counters(s: St)
    requires PipeOk(s)
    ensures Empty(s.pi) <==> |s.h.put| == |s.h.out|
    ensures IsFull(s.pi) <==> |s.h.put| == |s.h.out| + PIPESIZE
    ensures (s.pi.nwrite - s.pi.nread) % U32 == |s.h.put| - |s.h.out|
    ensures s.pi.nread % PIPESIZE == |s.h.out| % PIPESIZE && s.pi.nwrite % PIPESIZE == |s.h.put| % PIPESIZE
  {
    hide *;
    PipeParts(s);
    CounterArith(|s.h.out|, |s.h.put|);
  }

  lemma PipeParts(s: St)
    requires PipeOk(s)
    ensures |s.h.out| <= |s.h.put| <= |s.h.out| + PIPESIZE
    ensures s.h.out <= s.h.put && s.pi.nread == |s.h.out| % U32 && s.pi.nwrite == |s.h.put| % U32
    ensures Empty(s.pi) <==> s.pi.nread == s.pi.nwrite
    ensures IsFull(s.pi) <==> s.pi.nwrite == (s.pi.nread + PIPESIZE) % U32
  {
  }

  lemma CounterArith(t: nat, p: nat)
    requires t <= p <= t + PIPESIZE
    ensures t % U32 == p % U32 <==> p == t
    ensures p % U32 == (t % U32 + PIPESIZE) % U32 <==> p == t + PIPESIZE
    ensures (p % U32 - t % U32) % U32 == p - t
    ensures t % U32 % PIPESIZE == t % PIPESIZE && p % U32 % PIPESIZE == p % PIPESIZE
  {
    WrapDistance(t, p);
    WrapAdd(t, PIPESIZE);
    WrapDistance(p, t + PIPESIZE);
    WrapIndex(t);
    WrapIndex(p);
  }

  lemma WrapAdd(a: nat, c: nat)
    ensures (a % U32 + c) % U32 == (a + c) % U32
  {
    var q, r := a / U32, a % U32;
    assert a + c == q * U32 + (r + c);
  }

  lemma WrapDistance(a: nat, b: nat)
    requires a <= b < a + U32
    ensures (b % U32 - a % U32) % U32 == b - a
    ensures a % U32 == b % U32 <==> a == b
  {
    assert a == a / U32 * U32 + a % U32 && b == b / U32 * U32 + b % U32;
  }

  lemma WrapIndex(a: nat)
    ensures a % U32 % PIPESIZE == a % PIPESIZE
  {
    var q, r := a / U32, a % U32;
    assert a == (q * 0x80_0000) * PIPESIZE + r;
  }

  lemma SlotApart(i: nat, j: nat)
    requires i < j < i + PIPESIZE
    ensures i % PIPESIZE != j % PIPESIZE
  {
  }

  /** A byte put into a pipe that is not full overwrites nothing that is still to be read. */
  lemma PutKeeps(s: St, ch: char)
    requires PipeOk(s) && !IsFull(s.pi)
    ensures PipeOk(Put(s, ch))
  {
    hide IsFull;
    Counters(s);
    WrapAdd(|s.h.put|, 1);
    PutSlots(s, ch);
  }

  lemma PutSlots(s: St, ch: char)
    requires PipeOk(s) && |s.h.put| < |s.h.out| + PIPESIZE && s.pi.nwrite % PIPESIZE == |s.h.put| % PIPESIZE
    ensures var t := Put(s, ch);
            forall j: nat {:trigger t.h.put[j]} :: |t.h.out| <= j < |t.h.put| ==> t.pi.data[j % PIPESIZE] == t.h.put[j]
  {
    var t := Put(s, ch);
    forall j: nat | |t.h.out| <= j < |t.h.put| ensures t.pi.data[j % PIPESIZE] == t.h.put[j] {
      if j < |s.h.put| {
        SlotApart(j, |s.h.put|);
        assert s.pi.data[j % PIPESIZE] == s.h.put[j];
      }
    }
  }

  /** The byte taken from a pipe that is not empty is the oldest one not yet taken. */
  lemma GetKeeps(s: St)
    requires PipeOk(s) && !Empty(s.pi)
    ensures PipeOk(Get(s)) && |s.h.out| < |s.h.put| && Next(s) == s.h.put[|s.h.out|]
  {
    hide IsFull;
    Counters(s);
    WrapAdd(|s.h.out|, 1);
    var t := Get(s);
    assert s.pi.data[|s.h.out| % PIPESIZE] == s.h.put[|s.h.out|];
    forall j: nat | |t.h.out| <= j < |t.h.put| ensures t.pi.data[j % PIPESIZE] == t.h.put[j] {
      assert s.pi.data[j % PIPESIZE] == s.h.put[j];
    }
  }

  // ----- updates and conditions -----

  /** The updates made under pi->lock. */
  datatype Act = PutByte(ch: char) | GetByte | CloseRead | CloseWrite

  predicate Enabled(s: St, a: Act) {
    match a
    case PutByte(_) => s.pi.readopen && !IsFull(s.pi)
    case GetByte => !Empty(s.pi)
    case CloseRead => true
    case CloseWrite => true
  }

  function Apply(s: St, a: Act): St {
    match a
    case PutByte(ch) => Put(s, ch)
    case GetByte => Get(s)
    case CloseRead => s.(pi := s.pi.(readopen := false))
    case CloseWrite => s.(pi := s.pi.(writeopen := false))
  }

  /** What a process sleeping on a channel waits for. */
  predicate Ready(c: nat, s: St) {
    (c == NREAD && !(Empty(s.pi) && s.pi.writeopen)) || (c == NWRITE && !(IsFull(s.pi) && s.pi.readopen))
  }

  lemma ApplyKeeps(s: St, a: Act)
    requires PipeOk(s) && Enabled(s, a)
    ensures PipeOk(Apply(s, a)) && s.h.put <= Apply(s, a).h.put && s.h.out <= Apply(s, a).h.out
  {
    match a
    case PutByte(ch) => PutKeeps(s, ch);
    case GetByte => GetKeeps(s);
    case CloseRead =>
    case CloseWrite =>
  }

  /** Which conditions an update can make true. */
  lemma UpdateWakes(s: St, a: Act, c: nat)
    requires PipeOk(s) && Enabled(s, a) && Ready(c, Apply(s, a)) && !Ready(c, s)
    ensures match a
            case PutByte(_) => c == NREAD && Empty(s.pi) && s.pi.writeopen
            case GetByte => c == NWRITE
            case CloseRead => c == NWRITE
            case CloseWrite => c == NREAD
  {
    hide PipeOk;
    ApplyKeeps(s, a);
    Counters(s);
    Counters(Apply(s, a));
    PipeParts(s);
    PipeParts(Apply(s, a));
  }

  // ----- the code -----

  type PipeMachine = Machine<St, Ctl>
  type PipeLabel = Label<St, Ctl>

  /** Where a process is in pipewrite(), piperead() and pipeclose(). */
  datatype Ctl =
    | Away                          // in no pipe function
    | Writing(n: nat, owes: bool)   // n bytes to write; owes: see below
    | FullWoken(n: nat)             // the pipe is full and the readers are woken
    | Reading(n: nat)               // waiting for bytes
    | Copying(n: nat, owes: bool)   // up to n bytes to take; owes: took some
    | Closing(writable: bool)
    | Closed(writable: bool)        // the end is closed, about to call wakeup()
    | Leaving                       // about to release pi->lock and return

  /** Since it got pi->lock or called wakeup(), the writer has put a byte into an empty pipe with writers. */
  predicate Owes(owes: bool, s: St) { owes || (Empty(s.pi) && s.pi.writeopen) }

  /**
    The three functions. A process can find itself killed at any test, and any copy from or to user
    memory can fail.
  */
  ghost predicate Prog(p: nat, at: Ctl, s: St, i: Instr<St>, next: Ctl) {
    match at
    case Away => i == Lock && (next.Reading? || next.Closing? || (next.Writing? && !next.owes))
    case Writing(n, owes) =>
      if n == 0 then i == WakeUp(NREAD) && next == Leaving
      else
        || (i == Unlock && next == Away)
        || (s.pi.readopen && IsFull(s.pi) && i == WakeUp(NREAD) && next == FullWoken(n))
        || (s.pi.readopen && !IsFull(s.pi) && i == WakeUp(NREAD) && next == Leaving)
        || (s.pi.readopen && !IsFull(s.pi) && (exists ch :: i == Update(Put(s, ch))) && next == Writing(n - 1, Owes(owes, s)))
    case FullWoken(n) => i == SleepOn(NWRITE) && next == Writing(n, false)
    case Reading(n) =>
      if Empty(s.pi) && s.pi.writeopen
      then (i == Unlock && next == Away) || (i == SleepOn(NREAD) && next == Reading(n))
      else i == Update(s) && next == Copying(n, false)
    case Copying(n, owes) =>
      if n == 0 || Empty(s.pi) then i == WakeUp(NWRITE) && next == Leaving
      else i == Update(Get(s)) && (next == Copying(n - 1, true) || next == Copying(0, true))
    case Closing(w) => i == Update(Apply(s, if w then CloseWrite else CloseRead)) && next == Closed(w)
    case Closed(w) => i == WakeUp(if w then NREAD else NWRITE) && next == Leaving
    case Leaving => i == Unlock && next == Away
  }

  ghost predicate PipeRun(ms: seq<PipeMachine>, ls: seq<PipeLabel>) {
    Run(Ready, Prog, Away, ms, ls) && PipeOk(ms[0].s)
  }

  ghost predicate PlaceOk(m: PipeMachine, q: nat)
    requires q < |m.procs|
  {
    var me := m.procs[q];
    && (me.pc.Out? <==> me.at == Away)
    && (Asleep(me.pc) ==> (me.at.Writing? && !me.at.owes && me.pc.c == NWRITE) || (me.at.Reading? && me.pc.c == NREAD))
    && (me.pc.Wake? || me.pc.WakeLocked? ==> me.at == Leaving || me.at.FullWoken?)
    && (me.at.FullWoken? ==> m.s.pi.readopen && IsFull(m.s.pi))
    && (me.at.Writing? && me.pc.In? ==> m.credit == iset{})
    && (me.at.Writing? && me.at.owes ==> m.s.pi.readopen && NREAD in m.debt)
  }

  ghost predicate PlacesOk(m: PipeMachine) {
    forall q: nat {:trigger PlaceOk(m, q)} :: q < |m.procs| ==> PlaceOk(m, q)
  }

  /** What an update does. */
  lemma UpdateIs(m: PipeMachine, l: PipeLabel) returns (same: bool, a: Act)
    requires Obeys(Prog, m, l) && l.Exec? && l.i.Update?
    ensures l.p < |m.procs|
    ensures if same then l.i.t == m.s else Enabled(m.s, a) && l.i.t == Apply(m.s, a)
    ensures same ==> m.procs[l.p].at.Reading? && l.at == Copying(m.procs[l.p].at.n, false)
    ensures !same ==> match a
                      case PutByte(_) => m.procs[l.p].at.Writing? && l.at.Writing? && l.at.owes == Owes(m.procs[l.p].at.owes, m.s)
                      case GetByte => m.procs[l.p].at.Copying? && l.at.Copying? && l.at.owes
                      case CloseRead => m.procs[l.p].at == Closing(false) && l.at == Closed(false)
                      case CloseWrite => m.procs[l.p].at == Closing(true) && l.at == Closed(true)
  {
    same, a := false, GetByte;
    match m.procs[l.p].at
    case Writing(n, _) =>
      var ch :| l.i == Update(Put(m.s, ch));
      a := PutByte(ch);
    case Reading(_) => same := true;
    case Copying(_, _) =>
    case Closing(w) => a := if w then CloseWrite else CloseRead;
  }

  lemma StateFollows(m: PipeMachine, l: PipeLabel, n: PipeMachine)
    requires PipeOk(m.s) && Step(Ready, m, l, n) && Obeys(Prog, m, l)
    ensures PipeOk(n.s)
  {
    hide PipeOk, Enabled, Apply, Ready, Prog;
    if l.Exec? && l.i.Update? {
      var same, a := UpdateIs(m, l);
      if !same { ApplyKeeps(m.s, a); }
    }
    NoBypass(m, l);
  }

  lemma NoBypass(m: PipeMachine, l: PipeLabel)
    requires Obeys(Prog, m, l)
    ensures l.Exec? ==> !l.i.Bypass?
  {
  }

  lemma PlaceControl(m: PipeMachine, l: PipeLabel, n: PipeMachine)
    requires PlacesOk(m) && Inv(Ready, m) && Step(Ready, m, l, n) && Obeys(Prog, m, l) && l.Exec? && !l.i.Update?
    ensures PlaceOk(n, l.p)
  {
    hide Ready, Good;
    assert PlaceOk(m, l.p);
  }

  /** The writer that puts a byte into an empty pipe with writers owes the readers a wakeup from then on. */
  lemma PlaceUpdate(m: PipeMachine, l: PipeLabel, n: PipeMachine)
    requires PipeOk(m.s) && PlacesOk(m) && Step(Ready, m, l, n) && Obeys(Prog, m, l) && l.Exec? && l.i.Update?
    ensures PlaceOk(n, l.p)
  {
    hide PipeOk, Prog;
    assert PlaceOk(m, l.p);
    var same, a := UpdateIs(m, l);
    if !same && a.PutByte? {
      ApplyKeeps(m.s, a);
      Counters(m.s);
      Counters(n.s);
      PipeParts(m.s);
      PipeParts(n.s);
    }
  }

  lemma PlaceOther(m: PipeMachine, l: PipeLabel, n: PipeMachine, q: nat)
    requires PlacesOk(m) && Inv(Ready, m) && Step(Ready, m, l, n) && Obeys(Prog, m, l) && l.Exec? && q < |m.procs| && q != l.p
    ensures |n.procs| == |m.procs| && PlaceOk(n, q)
  {
    hide Ready, WaitOk, StateOk, Prog;
    assert PlaceOk(m, q) && Good(Ready, m, q) && Good(Ready, m, l.p);
    NoBypass(m, l);
  }

  lemma PlaceElse(m: PipeMachine, l: PipeLabel, n: PipeMachine, q: nat)
    requires PlacesOk(m) && Inv(Ready, m) && Step(Ready, m, l, n) && !l.Exec? && q < |m.procs|
    ensures |n.procs| == |m.procs| && PlaceOk(n, q)
  {
    hide Ready, WaitOk, StateOk, ExecStep;
    assert PlaceOk(m, l.p) && PlaceOk(m, q) && Good(Ready, m, q) && Good(Ready, m, l.p);
  }

  lemma PlacesFollow(m: PipeMachine, l: PipeLabel, n: PipeMachine)
    requires PipeOk(m.s) && PlacesOk(m) && Inv(Ready, m) && Step(Ready, m, l, n) && Obeys(Prog, m, l)
    ensures PlacesOk(n)
  {
    hide PipeOk, Step, Obeys, PlaceOk, Inv;
    SameProcs(Ready, m, l, n);
    if l.Exec? { if l.i.Update? { PlaceUpdate(m, l, n); } else { PlaceControl(m, l, n); } }
    forall q: nat | q < |n.procs| ensures PlaceOk(n, q) {
      if !l.Exec? { PlaceElse(m, l, n, q); } else if q != l.p { PlaceOther(m, l, n, q); }
    }
  }

  lemma {:induction false} PipeSafe(ms: seq<PipeMachine>, ls: seq<PipeLabel>, k: nat)
    requires PipeRun(ms, ls) && k < |ms|
    ensures PipeOk(ms[k].s) && PlacesOk(ms[k])
  {
    hide Step, Obeys, PipeOk;
    if k > 0 {
      PipeSafe(ms, ls, k - 1);
      RunKeeps(Ready, Prog, Away, ms, ls, k - 1);
      assert Step(Ready, ms[k - 1], ls[k - 1], ms[k - 1 + 1]) && Obeys(Prog, ms[k - 1], ls[k - 1]);
      StateFollows(ms[k - 1], ls[k - 1], ms[k]);
      PlacesFollow(ms[k - 1], ls[k - 1], ms[k]);
    } else {
      forall q: nat | q < |ms[0].procs| ensures PlaceOk(ms[0], q) {}
    }
  }

  /**
    In every state of every run the bytes taken out are a prefix of the bytes put in, and the
    counters differ by at most PIPESIZE modulo 2^32.
  */
  lemma FifoAlways(ms: seq<PipeMachine>, ls: seq<PipeLabel>, k: nat)
    requires PipeRun(ms, ls) && k < |ms|
    ensures PipeOk(ms[k].s)
    ensures ms[k].s.h.out <= ms[k].s.h.put && (ms[k].s.pi.nwrite - ms[k].s.pi.nread) % U32 <= PIPESIZE
  {
    hide PipeOk, PipeRun;
    PipeSafe(ms, ls, k);
    Counters(ms[k].s);
    PipeParts(ms[k].s);
  }

  // ----- sleeping readers and writers -----

  ghost function Due(): Dues<Ctl> {
    Dues((at: Ctl) => if (at.Writing? && at.owes) || at == Closed(true) then iset{NREAD}
                      else if (at.Copying? && at.owes) || at == Closed(false) then iset{NWRITE} else iset{},
         (at: Ctl) => iset{})
  }

  /** A writer returns from the test for killed, owing the readers a wakeup. */
  predicate Strands(m: PipeMachine, l: PipeLabel) {
    l.Exec? && l.i == Unlock && l.p < |m.procs| && m.procs[l.p].at.Writing? && m.procs[l.p].at.owes
  }

  /** This is the only way in which the code fails to pay a debt. */
  lemma PaysItsDebts(m: PipeMachine, l: PipeLabel)
    requires PipeOk(m.s) && PlacesOk(m) && Obeys(Prog, m, l)
    ensures HonestStep(Ready, Due(), m, l) <==> !Strands(m, l)
  {
    hide PipeOk;
    if l.Exec? {
      assert PlaceOk(m, l.p);
      if l.i.Update? { UpdatePays(m, l); }
    }
  }

  lemma UpdatePays(m: PipeMachine, l: PipeLabel)
    requires PipeOk(m.s) && Obeys(Prog, m, l) && l.Exec? && l.i.Update?
    ensures HonestStep(Ready, Due(), m, l)
  {
    hide PipeOk, Ready, Prog, Enabled, Apply;
    var same, a := UpdateIs(m, l);
    forall c | c in Newly(Ready, m.s, l.i.t) ensures c in Due().owed(l.at) {
      if !same { UpdateWakes(m.s, a, c); }
    }
  }

  lemma Honestly(ms: seq<PipeMachine>, ls: seq<PipeLabel>, k: nat)
    requires PipeRun(ms, ls) && k < |ms| && forall i :: 0 <= i < k ==> !Strands(ms[i], ls[i])
    ensures forall i :: 0 <= i < k ==> HonestStep(Ready, Due(), ms[i], ls[i])
  {
    hide Step, Obeys, HonestStep, PipeOk;
    forall i | 0 <= i < k ensures HonestStep(Ready, Due(), ms[i], ls[i]) {
      PipeSafe(ms, ls, i);
      assert Obeys(Prog, ms[i], ls[i]);
      PaysItsDebts(ms[i], ls[i]);
    }
  }

  /**
    With pi->lock free, a sleeping reader means an empty pipe with writers, and a sleeping writer a
    full pipe with readers, as long as no killed writer has left owing a wakeup.
  */
  lemma PipeSleepers(ms: seq<PipeMachine>, ls: seq<PipeLabel>, k: nat, q: nat)
    requires PipeRun(ms, ls) && k < |ms| && ms[k].lk == Nobody && q < |ms[k].procs|
    requires forall i :: 0 <= i < k ==> !Strands(ms[i], ls[i])
    requires ms[k].procs[q].state == Sleeping
    ensures var s, c := ms[k].s, ms[k].procs[q].chan;
            || (c == NREAD && s.h.out == s.h.put && s.pi.writeopen)
            || (c == NWRITE && |s.h.put| == |s.h.out| + PIPESIZE && s.pi.readopen)
  {
    hide Step, Obeys, HonestStep, PipeOk;
    Honestly(ms, ls, k);
    NoLostWakeup(Ready, Prog, Away, Due(), ms, ls, k, q);
    PipeSafe(ms, ls, k);
    RunKeeps(Ready, Prog, Away, ms, ls, k);
    assert Good(Ready, ms[k], q) && PlaceOk(ms[k], q);
    Counters(ms[k].s);
    PipeParts(ms[k].s);
  }

  /**
    In a run without an earlier such exit, a process gives up pi->lock leaving the readers a wakeup
    short if and only if it is a writer that stops at the test for killed and has put a byte into
    an empty pipe with writers since it got the lock. The readers can only be owed one on a pipe
    that is not empty.
  */
  lemma OwingExactly(ms: seq<PipeMachine>, ls: seq<PipeLabel>, k: nat)
    requires PipeRun(ms, ls) && k < |ls| && ms[k + 1].lk == Nobody && ms[k].lk.By?
    requires forall i :: 0 <= i < k ==> !Strands(ms[i], ls[i])
    ensures NREAD in ms[k + 1].debt <==> Strands(ms[k], ls[k])
    ensures Strands(ms[k], ls[k]) ==> ms[k].s.pi.readopen
  {
    hide PipeOk, Ready, Prog, HonestStep;
    Honestly(ms, ls, k);
    PipeSafe(ms, ls, k);
    RunKeeps(Ready, Prog, Away, ms, ls, k);
    SolventRun(Ready, Prog, Away, Due(), ms, ls, k);
    assert Step(Ready, ms[k], ls[k], ms[k + 1]) && Obeys(Prog, ms[k], ls[k]);
    PaysItsDebts(ms[k], ls[k]);
    GivesUp(ms[k], ls[k], ms[k + 1]);
  }

  lemma GivesUp(m: PipeMachine, l: PipeLabel, n: PipeMachine)
    requires PlacesOk(m) && Inv(Ready, m) && Solvent(Due(), m) && Step(Ready, m, l, n) && m.lk.By? && n.lk == Nobody
    requires HonestStep(Ready, Due(), m, l) <==> !Strands(m, l)
    ensures NREAD in n.debt <==> Strands(m, l)
    ensures Strands(m, l) ==> m.s.pi.readopen
  {
    hide Ready, WaitOk, StateOk;
    assert Good(Ready, m, l.p) && PlaceOk(m, l.p);
  }

  // ----- a reader left asleep -----

  /** A new pipe, with the bytes put and out. */
  function NewPipe(data: Ring): St { St(Pipe(data, 0, 0, true, true), Hist([], [])) }

  function Pair(s: St, lk: Holder, r: Proc<Ctl>, w: Proc<Ctl>): PipeMachine {
    Machine(s, lk, iset{}, iset{}, [r, w])
  }

  /** A reader goes to sleep on an empty pipe. */
  lemma ReaderSleeps(s: St) returns (ms: seq<PipeMachine>, ls: seq<PipeLabel>)
    requires PipeOk(s) && Empty(s.pi) && s.pi.writeopen
    ensures PipeRun(ms, ls)
    ensures ms[|ls|] == Pair(s, Nobody, Proc(Reading(1), Gone(NREAD), Sleeping, NREAD, Nobody), Proc(Away, Out, Running, 0, Nobody))
  {
    hide PipeOk;
    var w := Proc(Away, Out, Running, 0, Nobody);
    var m0 := Pair(s, Nobody, w, w);
    var m1 := Pair(s, By(0), Proc(Reading(1), In, Running, 0, Nobody), w);
    var m2 := Pair(s, By(0), Proc(Reading(1), Locking(NREAD), Running, 0, Nobody), w);
    ms, ls := [m0], [];
    ms, ls := More(Ready, Prog, Away, ms, ls, Exec(0, Lock, Reading(1)), m1);
    assert m2.debt == m1.debt + (if Ready(NREAD, s) then iset{NREAD} else iset{});
    ms, ls := More(Ready, Prog, Away, ms, ls, Exec(0, SleepOn(NREAD), Reading(1)), m2);
    ms, ls := FallAsleep(Ready, Prog, Away, ms, ls, 0);
    assert m2.procs[0 := Proc(Reading(1), Gone(NREAD), Sleeping, NREAD, Nobody)] == [Proc(Reading(1), Gone(NREAD), Sleeping, NREAD, Nobody), w];
  }

  /**
    A run that ends with pi->lock free, a reader asleep and a byte in the pipe: the writer was
    killed after it put the byte in.
  */
  lemma StrandedReader(data: Ring, ch: char) returns (ms: seq<PipeMachine>, ls: seq<PipeLabel>)
    ensures PipeRun(ms, ls)
    ensures var m := ms[|ls|];
            && m.lk == Nobody && |m.procs| == 2 && m.procs[0].state == Sleeping && m.procs[0].chan == NREAD
            && m.s.h.put == [ch] && m.s.h.out == [] && !Empty(m.s.pi)
  {
    hide PipeOk, Prog, Init;
    var s := NewPipe(data);
    NewPipeOk(data, ch);
    ms, ls := ReaderSleeps(s);
    var r := Proc(Reading(1), Gone(NREAD), Sleeping, NREAD, Nobody);
    var m8 := Pair(s, By(1), r, Proc(Writing(2, false), In, Running, 0, Nobody));
    var m9 := Machine(Put(s, ch), By(1), iset{NREAD}, iset{}, [r, Proc(Writing(1, true), In, Running, 0, Nobody)]);
    var m10 := m9.(lk := Nobody, procs := [r, Proc(Away, Out, Running, 0, Nobody)]);
    ms, ls := More(Ready, Prog, Away, ms, ls, Exec(1, Lock, Writing(2, false)), m8);
    assert m9.debt == m8.debt + (Newly(Ready, s, Put(s, ch)) - m8.credit);
    ms, ls := More(Ready, Prog, Away, ms, ls, Exec(1, Update(Put(s, ch)), Writing(1, true)), m9);
    ms, ls := More(Ready, Prog, Away, ms, ls, Exec(1, Unlock, Away), m10);
  }

  lemma NewPipeOk(data: Ring, ch: char)
    ensures var s := NewPipe(data);
            && PipeOk(s) && Empty(s.pi) && !Empty(Put(s, ch).pi) && Newly(Ready, s, Put(s, ch)) == iset{NREAD}
            && Prog(1, Away, s, Lock, Writing(2, false))
            && Prog(1, Writing(2, false), s, Update(Put(s, ch)), Writing(1, true))
            && Prog(1, Writing(1, true), Put(s, ch), Unlock, Away)
  {
  }

  /** The process that holds pi->lock, unless it is in sleep() or wakeup(), has an instruction to execute. */
  lemma HolderGoesOn(ms: seq<PipeMachine>, ls: seq<PipeLabel>, k: nat, p: nat, ch: char)
    returns (l: PipeLabel, n: PipeMachine)
    requires PipeRun(ms, ls) && k < |ms| && p < |ms[k].procs| && ms[k].procs[p].pc.In?
    ensures l.p == p && !Strands(ms[k], l) && PipeRun(ms[..k + 1] + [n], ls[..k] + [l])
  {
    hide Step, Obeys, PipeOk;
    PipeSafe(ms, ls, k);
    var m := ms[k];
    assert PlaceOk(m, p);
    var i, next := Instruction(m.s, m.procs[p].at, p, ch);
    n := CanExecute(Ready, Prog, m, p, i, next);
    l := Exec(p, i, next);
    RunPrefix(Ready, Prog, Away, ms, ls, k);
    RunMore(Ready, Prog, Away, ms[..k + 1], ls[..k], l, n);
  }

  lemma Instruction(s: St, at: Ctl, p: nat, ch: char) returns (i: Instr<St>, next: Ctl)
    requires at != Away && (at.Writing? && at.owes ==> s.pi.readopen)
    ensures Prog(p, at, s, i, next) && !i.Lock? && !i.Bypass? && (i == Unlock && at.Writing? ==> !at.owes)
  {
    i, next := Unlock, Away;
    match at
    case Writing(n, owes) =>
      if n == 0 { i, next := WakeUp(NREAD), Leaving; }
      else if s.pi.readopen && IsFull(s.pi) { i, next := WakeUp(NREAD), FullWoken(n); }
      else if s.pi.readopen { i, next := Update(Put(s, ch)), Writing(n - 1, Owes(owes, s)); }
    case FullWoken(n) => i, next := SleepOn(NWRITE), Writing(n, false);
    case Reading(n) => if Empty(s.pi) && s.pi.writeopen { i, next := SleepOn(NREAD), at; } else { i, next := Update(s), Copying(n, false); }
    case Copying(n, owes) =>
      if n == 0 || Empty(s.pi) { i, next := WakeUp(NWRITE), Leaving; } else { i, next := Update(Get(s)), Copying(n - 1, true); }
    case Closing(w) => i, next := Update(Apply(s, if w then CloseWrite else CloseRead)), Closed(w);
    case Closed(w) => i, next := WakeUp(if w then NREAD else NWRITE), Leaving;
    case Leaving =>
  }

  // ----- the functions as loops -----

  /**
    A process inside pipe code, holding pi->lock. Every update, wakeup, sleep and release is an
    instruction of Prog, so that what it does are steps of the runs above. What the others do
    while it sleeps is given as sequences of updates.
  */
  class Call {
    const p: nat
    var pi: Pipe
    ghost var h: Hist
    ghost var at: Ctl

    ghost function S(): St reads this { St(pi, h) }

    /** One update of the pipe. */
    method Do(a: Act, ghost next: Ctl)
      requires PipeOk(S()) && Enabled(S(), a) && Prog(p, at, S(), Update(Apply(S(), a)), next)
      modifies this
      ensures S() == Apply(old(S()), a) && PipeOk(S()) && at == next
      ensures old(h.put) <= h.put && old(h.out) <= h.out
    {
      Set(a);
      at := next;
    }

    method Set(a: Act)
      requires PipeOk(S()) && Enabled(S(), a)
      modifies this
      ensures S() == Apply(old(S()), a) && PipeOk(S()) && at == old(at)
      ensures old(h.put) <= h.put && old(h.out) <= h.out
    {
      ApplyKeeps(S(), a);
      h := Apply(S(), a).h;
      match a
      case PutByte(ch) => pi := pi.(data := pi.data[pi.nwrite % PIPESIZE := ch], nwrite := (pi.nwrite + 1) % U32);
      case GetByte => pi := pi.(nread := (pi.nread + 1) % U32);
      case CloseRead => pi := pi.(readopen := false);
      case CloseWrite => pi := pi.(writeopen := false);
    }

    /** wakeup(), release(), or going on without changing the pipe. */
    ghost method Go(i: Instr<St>, next: Ctl)
      requires Prog(p, at, S(), i, next) && (i.WakeUp? || i.Unlock? || i == Update(S()))
      modifies `at
      ensures at == next
    {
      at := next;
    }

    method Sleep(c: nat, others: seq<Act>, ghost next: Ctl)
      requires PipeOk(S()) && Prog(p, at, S(), SleepOn(c), next)
      modifies this
      ensures PipeOk(S()) && at == next && old(h.put) <= h.put && old(h.out) <= h.out
    {
      var i := 0;
      while i < |others|
        invariant i <= |others| && PipeOk(S()) && old(h.put) <= h.put && old(h.out) <= h.out
      {
        if Enabled(St(pi, Hist([], [])), others[i]) { Set(others[i]); }
        i := i + 1;
      }
      at := next;
    }

    /**
      pipewrite() of src: the process is found killed from test number kills on, and only the first
      good bytes can be copied. All bytes go in, in order, unless that or the end of the readers
      stops it. It tests once before each byte and once before each sleep, on the full pipes in
      fulls; it returns -1 at the first test that finds it killed, or without readers. done is
      false if it sleeps for ever.
    */
    method PipeWrite(src: seq<char>, kills: nat, good: nat, env: seq<seq<Act>>)
      returns (r: int, done: bool, ghost places: seq<nat>, ghost fulls: seq<St>)
      requires PipeOk(S()) && at == Writing(|src|, false)
      modifies this
      ensures PipeOk(S()) && Placed(src, places, h.put) && (done <==> at == Away)
      ensures forall j :: 0 <= j < |places| ==> places[j] >= |old(h.put)|
      ensures done && r != -1 ==> r == |places| == if good < |src| then good else |src|
      ensures forall j :: 0 <= j < |fulls| ==> IsFull(fulls[j].pi) && fulls[j].pi.readopen && old(h.put) <= fulls[j].h.put <= h.put
      ensures done && r != -1 ==> |places| + |fulls| + (if r < |src| then 1 else 0) <= kills
      ensures done && r == -1 ==> |places| < |src| && (!pi.readopen || |places| + |fulls| == kills)
      ensures !done ==> IsFull(pi) && pi.readopen && |places| < |src| && |places| + |fulls| < kills && |fulls| == |env|
    {
      hide PipeOk;
      var i, e, tests := 0, 0, 0;
      places, fulls := [], [];
      while i < |src|
        invariant i <= |src| && i == |places| <= good && e == |fulls| <= |env| && tests == i + e <= kills
        invariant forall j :: 0 <= j < |fulls| ==>
                    IsFull(fulls[j].pi) && fulls[j].pi.readopen && old(h.put) <= fulls[j].h.put <= h.put
        invariant PipeOk(S()) && Placed(src, places, h.put) && at.Writing? && at.n == |src| - i
        invariant old(h.put) <= h.put && forall j :: 0 <= j < |places| ==> places[j] >= |old(h.put)|
        decreases |src| - i, |env| - e
      {
        var killed := tests >= kills;
        tests := tests + 1;
        if !pi.readopen || killed {
          Go(Unlock, Away);
          return -1, true, places, fulls;
        }
        if IsFull(pi) {
          Go(WakeUp(NREAD), FullWoken(at.n));
          if e == |env| { return 0, false, places, fulls; }
          fulls := fulls + [S()];
          Sleep(NWRITE, env[e], Writing(at.n, false));
          e := e + 1;
        } else {
          if i >= good { break; }
          ghost var put := h.put;
          Do(PutByte(src[i]), Writing(at.n - 1, Owes(at.owes, S())));
          places := places + [|put|];
          i := i + 1;
        }
      }
      Go(WakeUp(NREAD), Leaving);
      Go(Unlock, Away);
      return i, true, places, fulls;
    }

    /**
      piperead() of up to n bytes, in a process found killed from test number kills on, of which only
      good can be copied out: the oldest bytes; none only if the writers are gone, or none were
      asked for. A byte that cannot be copied out is taken and lost. It tests before each sleep, on
      the empty pipes in empties, and returns -1 at the first test that finds it killed.
    */
    method PipeRead(n: nat, kills: nat, good: nat, env: seq<seq<Act>>)
      returns (r: seq<char>, ret: int, done: bool, ghost before: seq<char>, ghost lost: seq<char>, ghost empties: seq<St>)
      requires PipeOk(S()) && at == Reading(n)
      modifies this
      ensures PipeOk(S()) && old(h.out) <= h.out && (done <==> at == Away)
      ensures forall j :: 0 <= j < |empties| ==> Empty(empties[j].pi) && empties[j].pi.writeopen && old(h.out) <= empties[j].h.out <= h.out
      ensures !done ==> Empty(pi) && pi.writeopen && |empties| == |env| < kills
      ensures done && ret == -1 ==> Empty(pi) && pi.writeopen && |empties| == kills
      ensures done && ret != -1 ==> |empties| <= kills
      ensures done && ret != -1 ==>
                && ret == |r| <= n && old(h.out) <= before && h.out == before + r + lost && h.out <= h.put
                && |lost| == (if |r| == good && good < n && |before| + good < |h.put| then 1 else 0)
      ensures done && ret != -1 && |r| < n && |r| < good ==> h.out == h.put
      ensures done && ret == 0 && n > 0 && good > 0 ==> !pi.writeopen
    {
      hide PipeOk;
      var e := 0;
      r, before, lost, empties := [], [], [], [];
      while Empty(pi) && pi.writeopen
        invariant e == |empties| <= |env| && e <= kills && PipeOk(S()) && at == Reading(n) && old(h.out) <= h.out
        invariant forall j :: 0 <= j < |empties| ==>
                    Empty(empties[j].pi) && empties[j].pi.writeopen && old(h.out) <= empties[j].h.out <= h.out
        decreases |env| - e
      {
        if e >= kills {
          Go(Unlock, Away);
          return [], -1, true, before, lost, empties;
        }
        if e == |env| { return [], 0, false, before, lost, empties; }
        empties := empties + [S()];
        Sleep(NREAD, env[e], Reading(n));
        e := e + 1;
      }
      Go(Update(S()), Copying(n, false));
      before := h.out;
      Counters(S());
      r, lost := Take(n, good);
      Go(WakeUp(NWRITE), Leaving);
      Go(Unlock, Away);
      ret, done := |r|, true;
    }

    /** The copying loop of piperead(). */
    method Take(n: nat, good: nat) returns (r: seq<char>, ghost lost: seq<char>)
      requires PipeOk(S()) && at == Copying(n, false)
      modifies this
      ensures PipeOk(S()) && at.Copying? && (at.n == 0 || Empty(pi)) && |r| <= n && |r| <= good
      ensures h.out == old(h.out) + r + lost && h.put == old(h.put) && h.out <= h.put && pi.writeopen == old(pi.writeopen)
      ensures |lost| == if |r| == good && good < n && |old(h.out)| + good < |h.put| then 1 else 0
      ensures |r| < n && |r| < good ==> h.out == h.put
    {
      hide PipeOk;
      var i := 0;
      r, lost := [], [];
      while i < n
        invariant i <= n && i == |r| <= good && PipeOk(S()) && at.Copying? && at.n == n - i
        invariant h.out == old(h.out) + r && h.put == old(h.put) && pi.writeopen == old(pi.writeopen)
      {
        PipeParts(S());
        Counters(S());
        if Empty(pi) { return; }
        var ch := pi.data[pi.nread % PIPESIZE];
        if i >= good {
          Do(GetByte, Copying(0, true));
          lost := [ch];
          PipeParts(S());
          return;
        }
        Do(GetByte, Copying(at.n - 1, true));
        r := r + [ch];
        i := i + 1;
      }
      PipeParts(S());
    }

    /** pipeclose(): the pipe is freed when both ends are closed. */
    method PipeClose(writable: bool) returns (freed: bool)
      requires PipeOk(S()) && at == Closing(writable)
      modifies this
      ensures PipeOk(S()) && at == Away && h == old(h)
      ensures pi == if writable then old(pi).(writeopen := false) else old(pi).(readopen := false)
      ensures freed <==> !pi.readopen && !pi.writeopen
    {
      if writable {
        Do(CloseWrite, Closed(true));
        Go(WakeUp(NREAD), Leaving);
      } else {
        Do(CloseRead, Closed(false));
        Go(WakeUp(NWRITE), Leaving);
      }
      freed := !pi.readopen && !pi.writeopen;
      Go(Unlock, Away);
    }
  }

  /** The bytes of src are in put at increasing positions. */
  ghost predicate Placed(src: seq<char>, at: seq<nat>, put: seq<char>) {
    && |at| <= |src|
    && (forall j :: 0 <= j < |at| ==> at[j] < |put| && put[at[j]] == src[j])
    && (forall j, k :: 0 <= j < k < |at| ==> at[j] < at[k])
  }
}
