/**
  The process and lock protocol of `kernel/proc.c` and `kernel/sleeplock.c` as a transition
  system, over any number of processes, CPUs, sleep locks and conditions.

  Besides the two protocols of the kernel that are modelled step by step (sleep locks, and exit
  and wait), any number of other conditions can be waited for, each under a spinlock of its
  choice: a thread that holds the spinlock changes the conditions as it likes, owes a wakeup for
  each one it makes true, and sleeps only on one that is false.  Device interrupts do the same
  from any CPU whose interrupts are on.

  A step is what one CPU does between two lock operations: it acquires a spinlock, releases
  one, or updates fields that a lock it holds protects.  A CPU runs either its scheduler or
  the kernel thread of a process; the program counter `Pc` says where that thread is.  A thread
  that holds no spinlock may be interrupted at any point, and yield or run a device's handler.
 */
module ProcMachine {

  datatype ProcState = UNUSED | USED | SLEEPING | RUNNABLE | RUNNING | ZOMBIE

  /** What a process sleeps on: a process (in wait), a sleep lock, or condition k under spinlock Monitor(m). */
  datatype Chan = NoChan | ChanProc(p: nat) | ChanLock(l: nat) | ChanCond(m: nat, k: nat)

  /** The spinlocks: p->lock, wait_lock, pid_lock, the one inside each sleep lock, and those that protect conditions. */
  datatype Lock = PLock(p: nat) | WaitLock | PidLock | Inner(l: nat) | Monitor(m: nat)

  datatype Pc =
    | Idle                                                // user space, or kernel code outside this model
    // yield
    | YieldAcq(ret: Pc) | YieldSet(ret: Pc) | Resume(ret: Pc)
    // sleep
    | SleepAcq(ch: Chan, lk: Lock, ret: Pc) | SleepRel(ch: Chan, lk: Lock, ret: Pc)
    | SleepSet(ch: Chan, lk: Lock, ret: Pc)
    | Woken(lk: Lock, ret: Pc) | Reacq(lk: Lock, ret: Pc)
    // wakeup, called with `lk` held
    | WakeNext(ch: Chan, i: nat, lk: Lock, ret: Pc) | WakeHave(ch: Chan, i: nat, lk: Lock, ret: Pc)
    // acquiresleep and releasesleep
    | SlAcq(l: nat) | SlTest(l: nat) | SlDone(l: nat)
    | SlRelAcq(l: nat) | SlRelSet(l: nat) | SlRelDone(l: nat)
    // code that uses conditions under Monitor(m); it owes a wakeup for each condition in `due`
    | CondAcq(m: nat) | CondHold(m: nat, due: set<nat>)
    // exit
    | ExitAcq | ExitRep(i: nat) | ExitLock | ExitSet | ExitRel | ExitSched | Dead
    // wait
    | WaitAcq | WaitScan(i: nat, kids: bool) | WaitHave(i: nat, kids: bool)
    | WaitKAcq | WaitKHave | WaitRet | WaitFail
    // fork
    | ForkScan(i: nat) | ForkHave(i: nat) | ForkPid(i: nat) | ForkPid2(i: nat) | ForkUsed(i: nat)
    | ForkWAcq(i: nat) | ForkWSet(i: nat) | ForkLAcq(i: nat) | ForkLSet(i: nat)
    // kill
    | KillScan(pid: nat, i: nat) | KillHave(pid: nat, i: nat)

  /** The local variable of sched that keeps intena; a new process has not been in sched. */
  datatype Saved = Unset | Was(b: bool)

  /**
    `on` (the CPU running the process, -1 if none), `forker` (who is creating it) and `before`
    (whether interrupts were on before it took the first of the spinlocks it holds) are
    bookkeeping of the proof.
   */
  datatype Proc = Proc(st: ProcState, chan: Chan, killed: bool, pid: nat, parent: int, pc: Pc, on: int, forker: int,
                       saved: Saved, before: bool)

  datatype SchedPc = SScan(i: nat) | SHold(i: nat) | SBack(i: nat)
  datatype Thread = OnSched(spc: SchedPc) | OnProc(p: nat)

  /** Where the handler of a device interrupt is, on top of the thread it interrupted. */
  datatype Intr = NoIntr | IAcq(m: nat) | IHold(m: nat, due: set<nat>)
                | INext(m: nat, k: nat, i: nat, due: set<nat>) | IHave(m: nat, k: nat, i: nat, due: set<nat>)

  /** `ie` is the interrupt-enable bit; `noff` and `intena` are push_off's. */
  datatype Cpu = Cpu(proc: int, thr: Thread, noff: nat, ie: bool, intena: bool, intr: Intr)

  /** `owner` (the process between acquiresleep and releasesleep, -1 if none) is bookkeeping of the proof. */
  datatype SleepLock = SleepLock(locked: bool, pid: nat, owner: int)

  /**
    `conds` holds the channels whose condition is true; `exited` and `waited` record, for a whole
    run, the pids that exited and those that wait returned.
   */
  datatype State = State(procs: seq<Proc>, cpus: seq<Cpu>, locks: map<Lock, nat>, sleeplocks: seq<SleepLock>,
                         conds: set<Chan>, initproc: nat, nextpid: nat, exited: set<nat>, waited: seq<nat>)

  // ---------------------------------------------------------------------------
  // Which locks a thread holds
  // ---------------------------------------------------------------------------

  /** The spinlocks a thread holds, in the order it took them: never more than two. */
  datatype Held = Zero | One(a: Lock) | Two(a: Lock, b: Lock)

  predicate In(l: Lock, h: Held) { (h.One? && l == h.a) || (h.Two? && (l == h.a || l == h.b)) }

  function Count(h: Held): (k: nat) { if h.Zero? then 0 else if h.One? then 1 else 2 }

  function HeldAt(p: nat, pc: Pc): (h: Held) {
    match pc
    case YieldSet(_) => One(PLock(p))
    case Resume(_) => One(PLock(p))
    case SleepAcq(_, lk, _) => One(lk)
    case SleepRel(_, lk, _) => Two(lk, PLock(p))
    case SleepSet(_, _, _) => One(PLock(p))
    case Woken(_, _) => One(PLock(p))
    case WakeNext(_, _, lk, _) => One(lk)
    case WakeHave(_, i, lk, _) => Two(lk, PLock(i))
    case SlTest(l) => One(Inner(l))
    case SlDone(l) => One(Inner(l))
    case SlRelSet(l) => One(Inner(l))
    case SlRelDone(l) => One(Inner(l))
    case CondHold(m, _) => One(Monitor(m))
    case ExitRep(_) => One(WaitLock)
    case ExitLock => One(WaitLock)
    case ExitSet => Two(WaitLock, PLock(p))
    case ExitRel => Two(WaitLock, PLock(p))
    case ExitSched => One(PLock(p))
    case WaitScan(_, _) => One(WaitLock)
    case WaitHave(i, _) => Two(WaitLock, PLock(i))
    case WaitKAcq => One(WaitLock)
    case WaitKHave => Two(WaitLock, PLock(p))
    case WaitRet => One(WaitLock)
    case WaitFail => One(WaitLock)
    case ForkHave(i) => One(PLock(i))
    case ForkPid(i) => One(PLock(i))
    case ForkPid2(i) => Two(PLock(i), PidLock)
    case ForkUsed(i) => One(PLock(i))
    case ForkWSet(_) => One(WaitLock)
    case ForkLSet(i) => One(PLock(i))
    case KillHave(_, i) => One(PLock(i))
    case _ => Zero
  }

  function HeldBy(s: State, thr: Thread): (h: Held) {
    match thr
    case OnSched(SScan(_)) => Zero
    case OnSched(SHold(i)) => One(PLock(i))
    case OnSched(SBack(i)) => One(PLock(i))
    case OnProc(p) => if p < |s.procs| then HeldAt(p, s.procs[p].pc) else Zero
  }

  function HeldIn(h: Intr): (r: Held) {
    match h
    case NoIntr => Zero
    case IAcq(_) => Zero
    case IHold(m, _) => One(Monitor(m))
    case INext(m, _, _, _) => One(Monitor(m))
    case IHave(m, _, i, _) => Two(Monitor(m), PLock(i))
  }

  /** A thread that is interrupted holds nothing. */
  function HeldOn(s: State, c: nat): (h: Held)
    requires c < |s.cpus|
  {
    if s.cpus[c].intr.NoIntr? then HeldBy(s, s.cpus[c].thr) else HeldIn(s.cpus[c].intr)
  }

  // ---------------------------------------------------------------------------
  // What a step of a process does
  // ---------------------------------------------------------------------------

  datatype LockOp = NoOp | Take(l: Lock) | Drop(l: Lock)

  /**
    The effect of one step of process p: the lock operation, p's new record, the new record of
    another process (`who` = -1 if none) and of a sleep lock (`which` = -1 if none), the conditions
    that then hold, the new bookkeeping, and whether p calls sched, so that its CPU goes on in the
    scheduler.
   */
  datatype Effect = Effect(op: LockOp, me: Proc, who: int, them: Proc, which: int, lock: SleepLock, conds: set<Chan>,
                           nextpid: nat, exited: set<nat>, waited: seq<nat>, sched: bool)

  function Moves(s: State, p: nat, pc: Pc): (e: Effect)
    requires p < |s.procs|
  {
    Effect(NoOp, s.procs[p].(pc := pc), -1, s.procs[p], -1, SleepLock(false, 0, -1), s.conds,
           s.nextpid, s.exited, s.waited, false)
  }

  function Acquires(s: State, p: nat, l: Lock, pc: Pc): (e: Effect)
    requires p < |s.procs|
  {
    Moves(s, p, pc).(op := Take(l))
  }

  function Releases(s: State, p: nat, l: Lock, pc: Pc): (e: Effect)
    requires p < |s.procs|
  {
    Moves(s, p, pc).(op := Drop(l))
  }

  /** sched(): the thread stops in state `r`. */
  function Scheds(s: State, p: nat, r: Proc): (e: Effect)
    requires p < |s.procs|
  {
    Moves(s, p, r.pc).(me := r, sched := true)
  }

  /** The fields that freeproc clears. */
  function Freed(r: Proc): (r': Proc) {
    r.(st := UNUSED, pid := 0, parent := -1, chan := NoChan, killed := false, pc := Idle, forker := -1, saved := Unset)
  }

  /** Where the thread really is, under any number of interrupts. */
  function Core(pc: Pc): (r: Pc) {
    match pc
    case YieldAcq(r) => Core(r)
    case YieldSet(r) => Core(r)
    case Resume(r) => Core(r)
    case _ => pc
  }

  predicate Alive(r: Proc) { r.st == RUNNING || r.st == RUNNABLE || r.st == SLEEPING }

  /** Starting an operation.  init does not exit, and a process that exits holds no sleep lock. */
  ghost predicate Begins(s: State, p: nat, e: Effect)
    requires p < |s.procs|
  {
    s.procs[p].pc.Idle? && e == Moves(s, p, e.me.pc) &&
    match e.me.pc
    case WaitAcq => true
    case ForkScan(i) => i == 0
    case KillScan(_, i) => i == 0
    case SlAcq(l) => l < |s.sleeplocks|
    case SlRelAcq(l) => l < |s.sleeplocks| && s.sleeplocks[l].owner == p
    case CondAcq(_) => true
    case ExitAcq => p != s.initproc && (forall l :: 0 <= l < |s.sleeplocks| ==> s.sleeplocks[l].owner != p)
    case _ => false
  }

  /** yield(), which an interrupt calls in any thread that holds no spinlock. */
  ghost predicate Yields(s: State, p: nat, e: Effect)
    requires p < |s.procs|
  {
    var pc := s.procs[p].pc;
    || (HeldAt(p, pc).Zero? && !pc.Dead? && e == Moves(s, p, YieldAcq(pc)))
    || match pc
       case YieldAcq(r) => e == Acquires(s, p, PLock(p), YieldSet(r))
       case YieldSet(r) => e == Scheds(s, p, s.procs[p].(st := RUNNABLE, pc := Resume(r)))
       case Resume(r) => e == Releases(s, p, PLock(p), r)
       case _ => false
  }

  ghost predicate Sleeps(s: State, p: nat, e: Effect)
    requires p < |s.procs|
  {
    match s.procs[p].pc
    case SleepAcq(ch, lk, r) => e == Acquires(s, p, PLock(p), SleepRel(ch, lk, r))
    case SleepRel(ch, lk, r) => e == Releases(s, p, lk, SleepSet(ch, lk, r))
    case SleepSet(ch, lk, r) => e == Scheds(s, p, s.procs[p].(st := SLEEPING, chan := ch, pc := Woken(lk, r)))
    case Woken(lk, r) =>
      e == Releases(s, p, PLock(p), Reacq(lk, r)).(me := s.procs[p].(chan := NoChan, pc := Reacq(lk, r)))
    case Reacq(lk, r) => e == Acquires(s, p, lk, r)
    case _ => false
  }

  ghost predicate Wakes(s: State, p: nat, e: Effect)
    requires p < |s.procs|
  {
    match s.procs[p].pc
    case WakeNext(ch, i, lk, r) =>
      if i >= |s.procs| then e == Moves(s, p, r)
      else if i == p then e == Moves(s, p, WakeNext(ch, i + 1, lk, r))
      else e == Acquires(s, p, PLock(i), WakeHave(ch, i, lk, r))
    case WakeHave(ch, i, lk, r) =>
      i < |s.procs| &&
      var done := Releases(s, p, PLock(i), WakeNext(ch, i + 1, lk, r));
      if s.procs[i].st == SLEEPING && s.procs[i].chan == ch then
        e == done.(who := i, them := s.procs[i].(st := RUNNABLE))
      else e == done
    case _ => false
  }

  ghost predicate UsesSleepLock(s: State, p: nat, e: Effect)
    requires p < |s.procs|
  {
    match s.procs[p].pc
    case SlAcq(l) => e == Acquires(s, p, Inner(l), SlTest(l))
    case SlTest(l) =>
      l < |s.sleeplocks| &&
      if s.sleeplocks[l].locked then e == Moves(s, p, SleepAcq(ChanLock(l), Inner(l), SlTest(l)))
      else e == Moves(s, p, SlDone(l)).(which := l, lock := SleepLock(true, s.procs[p].pid, p))
    case SlDone(l) => e == Releases(s, p, Inner(l), Idle)
    case SlRelAcq(l) => e == Acquires(s, p, Inner(l), SlRelSet(l))
    case SlRelSet(l) =>
      l < |s.sleeplocks| &&
      e == Moves(s, p, WakeNext(ChanLock(l), 0, Inner(l), SlRelDone(l))).(which := l, lock := SleepLock(false, 0, -1))
    case SlRelDone(l) => e == Releases(s, p, Inner(l), Idle)
    case _ => false
  }

  /** Using a condition: wakeup when it may have come true, and sleep while it is false. */
  ghost predicate UsesCond(s: State, p: nat, e: Effect)
    requires p < |s.procs|
  {
    match s.procs[p].pc
    case CondAcq(m) => e == Acquires(s, p, Monitor(m), CondHold(m, {}))
    case CondHold(m, due) =>
      || (due == {} && e == Releases(s, p, Monitor(m), Idle))
      || (exists k: nat :: e == Moves(s, p, WakeNext(ChanCond(m, k), 0, Monitor(m), CondHold(m, due - {k}))))
      || (due == {} && (exists k: nat :: (ChanCond(m, k) !in s.conds
                                          && e == Moves(s, p, SleepAcq(ChanCond(m, k), Monitor(m), CondHold(m, {}))))))
    case _ => false
  }

  /** A condition may change in any way; one that is made true is owed a wakeup before Monitor(m) is let go. */
  ghost predicate SetsCond(s: State, p: nat, e: Effect)
    requires p < |s.procs|
  {
    match s.procs[p].pc
    case CondHold(m, due) =>
      exists k: nat ::
        || e == Moves(s, p, CondHold(m, due + {k})).(conds := s.conds + {ChanCond(m, k)})
        || e == Moves(s, p, CondHold(m, due - {k})).(conds := s.conds - {ChanCond(m, k)})
    case _ => false
  }

  ghost predicate Exits(s: State, p: nat, e: Effect)
    requires p < |s.procs|
  {
    match s.procs[p].pc
    case ExitAcq => e == Acquires(s, p, WaitLock, ExitRep(0))
    case ExitRep(i) =>
      if i >= |s.procs| then
        s.procs[p].parent >= 0 && e == Moves(s, p, WakeNext(ChanProc(s.procs[p].parent), 0, WaitLock, ExitLock))
      else if s.procs[i].parent == p then
        e == Moves(s, p, WakeNext(ChanProc(s.initproc), 0, WaitLock, ExitRep(i + 1)))
             .(who := i, them := s.procs[i].(parent := s.initproc))
      else e == Moves(s, p, ExitRep(i + 1))
    case _ => false
  }

  /** The end of exit. */
  ghost predicate Dies(s: State, p: nat, e: Effect)
    requires p < |s.procs|
  {
    match s.procs[p].pc
    case ExitLock => e == Acquires(s, p, PLock(p), ExitSet)
    case ExitSet =>
      e == Moves(s, p, ExitRel).(me := s.procs[p].(st := ZOMBIE, pc := ExitRel), exited := s.exited + {s.procs[p].pid})
    case ExitRel => e == Releases(s, p, WaitLock, ExitSched)
    case ExitSched => e == Scheds(s, p, s.procs[p].(pc := Dead))
    case _ => false
  }

  /** The scan of wait. */
  ghost predicate Scans(s: State, p: nat, e: Effect)
    requires p < |s.procs|
  {
    match s.procs[p].pc
    case WaitAcq => e == Acquires(s, p, WaitLock, WaitScan(0, false))
    case WaitScan(i, kids) =>
      if i >= |s.procs| then (if kids then e == Moves(s, p, WaitKAcq) else e == Moves(s, p, WaitFail))
      else if s.procs[i].parent == p then e == Acquires(s, p, PLock(i), WaitHave(i, kids))
      else e == Moves(s, p, WaitScan(i + 1, kids))
    case _ => false
  }

  /** A child that the scan of wait has found. */
  ghost predicate Reaps(s: State, p: nat, e: Effect)
    requires p < |s.procs|
  {
    match s.procs[p].pc
    case WaitHave(i, kids) =>
      i < |s.procs| &&
      if s.procs[i].st == ZOMBIE then
        // freeproc and return the pid, or -1 when the exit status cannot be copied out
        || e == Releases(s, p, PLock(i), WaitRet)
                .(who := i, them := Freed(s.procs[i]), waited := s.waited + [s.procs[i].pid])
        || e == Releases(s, p, PLock(i), WaitFail)
      else e == Releases(s, p, PLock(i), WaitScan(i + 1, true))
    case _ => false
  }

  /** The rest of wait. */
  ghost predicate Returns(s: State, p: nat, e: Effect)
    requires p < |s.procs|
  {
    match s.procs[p].pc
    case WaitKAcq => e == Acquires(s, p, PLock(p), WaitKHave)
    case WaitKHave =>
      e == Releases(s, p, PLock(p),
                    if s.procs[p].killed then WaitFail else SleepAcq(ChanProc(p), WaitLock, WaitScan(0, false)))
    case WaitRet => e == Releases(s, p, WaitLock, Idle)
    case WaitFail => e == Releases(s, p, WaitLock, Idle)
    case _ => false
  }

  /** The scan of allocproc. */
  ghost predicate Allocs(s: State, p: nat, e: Effect)
    requires p < |s.procs|
  {
    match s.procs[p].pc
    case ForkScan(i) =>
      if i >= |s.procs| then e == Moves(s, p, Idle) else e == Acquires(s, p, PLock(i), ForkHave(i))
    case ForkHave(i) =>
      i < |s.procs| &&
      if s.procs[i].st == UNUSED then e == Moves(s, p, ForkPid(i)) else e == Releases(s, p, PLock(i), ForkScan(i + 1))
    case _ => false
  }

  /** allocproc has found a free slot. */
  ghost predicate Creates(s: State, p: nat, e: Effect)
    requires p < |s.procs|
  {
    match s.procs[p].pc
    case ForkPid(i) => e == Acquires(s, p, PidLock, ForkPid2(i))
    case ForkPid2(i) =>
      i < |s.procs| &&
      e == Releases(s, p, PidLock, ForkUsed(i))
           .(who := i, them := s.procs[i].(pid := s.nextpid, st := USED, forker := p), nextpid := s.nextpid + 1)
    case ForkUsed(i) =>
      // there is memory for the child, or freeproc
      i < |s.procs| &&
      (|| e == Releases(s, p, PLock(i), ForkWAcq(i)).(who := i, them := s.procs[i].(pc := Resume(Idle)))
       || e == Releases(s, p, PLock(i), Idle).(who := i, them := Freed(s.procs[i])))
    case _ => false
  }

  /** fork gives the child its parent. */
  ghost predicate Forks(s: State, p: nat, e: Effect)
    requires p < |s.procs|
  {
    match s.procs[p].pc
    case ForkWAcq(i) => e == Acquires(s, p, WaitLock, ForkWSet(i))
    case ForkWSet(i) =>
      i < |s.procs| && e == Releases(s, p, WaitLock, ForkLAcq(i)).(who := i, them := s.procs[i].(parent := p))
    case _ => false
  }

  /** fork makes the child RUNNABLE. */
  ghost predicate Starts(s: State, p: nat, e: Effect)
    requires p < |s.procs|
  {
    match s.procs[p].pc
    case ForkLAcq(i) => e == Acquires(s, p, PLock(i), ForkLSet(i))
    case ForkLSet(i) =>
      i < |s.procs| && e == Releases(s, p, PLock(i), Idle).(who := i, them := s.procs[i].(st := RUNNABLE, forker := -1))
    case _ => false
  }

  ghost predicate Kills(s: State, p: nat, e: Effect)
    requires p < |s.procs|
  {
    match s.procs[p].pc
    case KillScan(pid, i) =>
      if i >= |s.procs| then e == Moves(s, p, Idle) else e == Acquires(s, p, PLock(i), KillHave(pid, i))
    case KillHave(pid, i) =>
      i < |s.procs| &&
      if s.procs[i].pid != pid then e == Releases(s, p, PLock(i), KillScan(pid, i + 1))
      else if i == p then e == Releases(s, p, PLock(i), Idle).(me := s.procs[p].(killed := true, pc := Idle))
      else
        var st := if s.procs[i].st == SLEEPING then RUNNABLE else s.procs[i].st;
        e == Releases(s, p, PLock(i), Idle).(who := i, them := s.procs[i].(killed := true, st := st))
    case _ => false
  }

  ghost predicate Does(s: State, p: nat, e: Effect)
    requires p < |s.procs|
  {
    || Begins(s, p, e) || Yields(s, p, e) || Sleeps(s, p, e) || Wakes(s, p, e) || UsesSleepLock(s, p, e)
    || UsesCond(s, p, e) || SetsCond(s, p, e) || Exits(s, p, e) || Dies(s, p, e)
    || Scans(s, p, e) || Reaps(s, p, e) || Returns(s, p, e)
    || Allocs(s, p, e) || Creates(s, p, e) || Forks(s, p, e) || Starts(s, p, e) || Kills(s, p, e)
  }

  // ---------------------------------------------------------------------------
  // Steps of a CPU
  // ---------------------------------------------------------------------------

  /** push_off and pop_off, as acquire and release call them. */
  function Pushed(k: Cpu, op: LockOp): (k': Cpu) {
    match op
    case NoOp => k
    case Take(_) => k.(noff := k.noff + 1, ie := false, intena := if k.noff == 0 then k.ie else k.intena)
    case Drop(_) => k.(noff := if k.noff == 0 then 0 else k.noff - 1, ie := k.ie || (k.noff == 1 && k.intena))
  }

  /** acquire finds the lock free; the CPU becomes its holder. */
  ghost predicate LockStep(s: State, c: nat, op: LockOp, s': State)
    requires c < |s.cpus| && c < |s'.cpus|
  {
    && s'.cpus[c].noff == Pushed(s.cpus[c], op).noff
    && match op
       case NoOp => s'.locks == s.locks
       case Take(l) => l !in s.locks && s'.locks == s.locks[l := c]
       case Drop(l) => s'.locks == s.locks - {l}
  }

  /** What sched keeps in its local variable, and what the proof remembers of the outermost acquire. */
  function Kept(k: Cpu, c: nat, e: Effect): (r: Proc) {
    e.me.(on := if e.sched then -1 else c,
          saved := if e.sched then Was(k.intena) else e.me.saved,
          before := if e.op.Take? && k.noff == 0 then k.ie else e.me.before)
  }

  /** CPU c, running p, takes effect e. */
  ghost predicate Apply(s: State, c: nat, p: nat, e: Effect, s': State)
    requires c < |s.cpus| && p < |s.procs|
  {
    && -1 <= e.who < |s.procs| && -1 <= e.which < |s.sleeplocks|
    && s'.procs == (if e.who >= 0 then s.procs[e.who := e.them] else s.procs)[p := Kept(s.cpus[c], c, e)]
    && |s'.cpus| == |s.cpus|
    && s'.cpus == s.cpus[c := Pushed(s.cpus[c], e.op).(thr := if e.sched then OnSched(SBack(p)) else OnProc(p))]
    && LockStep(s, c, e.op, s')
    && s'.sleeplocks == (if e.which >= 0 then s.sleeplocks[e.which := e.lock] else s.sleeplocks)
    && s'.conds == e.conds
    && s'.initproc == s.initproc && s'.nextpid == e.nextpid && s'.exited == e.exited && s'.waited == e.waited
  }

  ghost predicate ProcStep(s: State, c: nat, p: nat, s': State)
    requires c < |s.cpus| && p < |s.procs|
  {
    exists e :: Does(s, p, e) && Apply(s, c, p, e, s')
  }

  /** CPU c becomes `k`, with a lock operation; nothing else changes but processes and conditions. */
  ghost predicate CpuMoves(s: State, c: nat, op: LockOp, k: Cpu, s': State)
    requires c < |s.cpus|
  {
    && |s'.cpus| == |s.cpus| && s'.cpus == s.cpus[c := k]
    && LockStep(s, c, op, s')
    && s'.sleeplocks == s.sleeplocks && s'.initproc == s.initproc
    && s'.nextpid == s.nextpid && s'.exited == s.exited && s'.waited == s.waited
  }

  /** A step of the scheduler of CPU c, whose thread becomes `thr`. */
  ghost predicate SchedMoves(s: State, c: nat, op: LockOp, thr: Thread, proc: int, s': State)
    requires c < |s.cpus|
  {
    CpuMoves(s, c, op, Pushed(s.cpus[c], op).(thr := thr, proc := proc), s') && s'.conds == s.conds
  }

  /** The intena of a CPU that switches to a process: sched restores what it saved, and forkret leaves it. */
  function Restored(k: Cpu, r: Proc): (b: bool) { if r.saved.Was? then r.saved.b else k.intena }

  ghost predicate SchedStep(s: State, c: nat, s': State)
    requires c < |s.cpus| && s.cpus[c].thr.OnSched?
  {
    match s.cpus[c].thr.spc
    case SScan(i) =>
      s'.procs == s.procs &&
      // intr_on() before each scan of the table
      if i >= |s.procs| then s'.conds == s.conds &&
          CpuMoves(s, c, NoOp, s.cpus[c].(thr := OnSched(SScan(0)), ie := true), s')
      else SchedMoves(s, c, Take(PLock(i)), OnSched(SHold(i)), -1, s')
    case SHold(i) =>
      i < |s.procs| &&
      if s.procs[i].st == RUNNABLE then
        var intena := Restored(s.cpus[c], s.procs[i]);
        && s'.procs == s.procs[i := s.procs[i].(st := RUNNING, on := c, before := intena)] && s'.conds == s.conds
        && CpuMoves(s, c, NoOp, s.cpus[c].(thr := OnProc(i), proc := i, intena := intena), s')
      else s'.procs == s.procs && SchedMoves(s, c, Drop(PLock(i)), OnSched(SScan(i + 1)), -1, s')
    case SBack(i) =>
      s'.procs == s.procs && SchedMoves(s, c, Drop(PLock(i)), OnSched(SScan(i + 1)), -1, s')
  }

  /** A kernel thread turns interrupts on or off while it holds no spinlock. */
  ghost predicate Toggles(s: State, c: nat, s': State)
    requires c < |s.cpus|
  {
    s.cpus[c].thr.OnProc? && s.cpus[c].noff == 0 && s'.procs == s.procs && s'.conds == s.conds &&
    CpuMoves(s, c, NoOp, s.cpus[c].(ie := !s.cpus[c].ie), s')
  }

  /** A step of the handler on CPU c, which goes on at `h`. */
  ghost predicate IntrMoves(s: State, c: nat, op: LockOp, h: Intr, s': State)
    requires c < |s.cpus|
  {
    CpuMoves(s, c, op, Pushed(s.cpus[c], op).(intr := h), s')
  }

  /** An interrupt is taken when interrupts are on, and turns them off. */
  ghost predicate IntrBegins(s: State, c: nat, s': State)
    requires c < |s.cpus|
  {
    s.cpus[c].ie && s'.procs == s.procs && s'.conds == s.conds &&
    exists m: nat :: CpuMoves(s, c, NoOp, s.cpus[c].(ie := false, intr := IAcq(m)), s')
  }

  /** What a handler that holds Monitor(m) does with condition k: as a thread does, but it does not sleep. */
  ghost predicate IntrCond(s: State, c: nat, m: nat, due: set<nat>, k: nat, s': State)
    requires c < |s.cpus|
  {
    var ch := ChanCond(m, k);
    || (s'.conds == s.conds + {ch} && IntrMoves(s, c, NoOp, IHold(m, due + {k}), s'))
    || (s'.conds == s.conds - {ch} && IntrMoves(s, c, NoOp, IHold(m, due - {k}), s'))
    || (s'.conds == s.conds && IntrMoves(s, c, NoOp, INext(m, k, 0, due - {k}), s'))
  }

  /** wakeup in a handler passes over the process it interrupted, if any. */
  ghost predicate IntrWakes(s: State, c: nat, s': State)
    requires c < |s.cpus|
  {
    s'.conds == s.conds &&
    match s.cpus[c].intr
    case INext(m, k, i, due) =>
      s'.procs == s.procs &&
      if i >= |s.procs| then IntrMoves(s, c, NoOp, IHold(m, due), s')
      else if i == s.cpus[c].proc then IntrMoves(s, c, NoOp, INext(m, k, i + 1, due), s')
      else IntrMoves(s, c, Take(PLock(i)), IHave(m, k, i, due), s')
    case IHave(m, k, i, due) =>
      i < |s.procs| && IntrMoves(s, c, Drop(PLock(i)), INext(m, k, i + 1, due), s') &&
      if s.procs[i].st == SLEEPING && s.procs[i].chan == ChanCond(m, k) then
        s'.procs == s.procs[i := s.procs[i].(st := RUNNABLE)]
      else s'.procs == s.procs
    case _ => false
  }

  ghost predicate IntrStep(s: State, c: nat, s': State)
    requires c < |s.cpus|
  {
    match s.cpus[c].intr
    case NoIntr => IntrBegins(s, c, s')
    case IAcq(m) =>
      s'.procs == s.procs && s'.conds == s.conds && IntrMoves(s, c, Take(Monitor(m)), IHold(m, {}), s')
    case IHold(m, due) =>
      s'.procs == s.procs &&
      (|| (due == {} && s'.conds == s.conds
           && CpuMoves(s, c, Drop(Monitor(m)), Pushed(s.cpus[c], Drop(Monitor(m))).(intr := NoIntr, ie := true), s'))
       || exists k: nat :: IntrCond(s, c, m, due, k, s'))
    case _ => IntrWakes(s, c, s')
  }

  /** One step of CPU c: of the handler of an interrupt, or of its thread. */
  ghost predicate Step(s: State, c: nat, s': State) {
    && c < |s.cpus|
    && (|| IntrStep(s, c, s')
        || (s.cpus[c].intr.NoIntr? && ThreadStep(s, c, s')))
  }

  ghost predicate ThreadStep(s: State, c: nat, s': State)
    requires c < |s.cpus|
  {
    || Toggles(s, c, s')
    || match s.cpus[c].thr
       case OnSched(_) => SchedStep(s, c, s')
       case OnProc(p) => p < |s.procs| && ProcStep(s, c, p, s')
  }

  /** After userinit: one process, ready to run, and every CPU about to scan the table. */
  ghost predicate Initial(s: State) {
    && s.initproc < |s.procs| && s.locks == map[] && s.nextpid == 2 && s.exited == {} && s.waited == []
    && (forall p :: 0 <= p < |s.procs| ==>
          s.procs[p] == if p == s.initproc then Proc(RUNNABLE, NoChan, false, 1, -1, Resume(Idle), -1, -1, Unset, false)
                        else Proc(UNUSED, NoChan, false, 0, -1, Idle, -1, -1, Unset, false))
    && (forall c :: 0 <= c < |s.cpus| ==>
          s.cpus[c].(ie := false, intena := false) == Cpu(-1, OnSched(SScan(0)), 0, false, false, NoIntr))
    && (forall l :: 0 <= l < |s.sleeplocks| ==> s.sleeplocks[l] == SleepLock(false, 0, -1))
  }
}
