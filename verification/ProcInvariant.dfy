/**
  What every step of the process machine keeps.
 */
module ProcInvariant {
  import opened ProcMachine

  // ---------------------------------------------------------------------------
  // Program counters are well formed
  // ---------------------------------------------------------------------------

  ghost predicate SleepArgs(s: State, p: nat, ch: Chan, lk: Lock, ret: Pc) {
    || (ch.ChanLock? && ch.l < |s.sleeplocks| && lk == Inner(ch.l) && ret == SlTest(ch.l))
    || (ch == ChanProc(p) && lk == WaitLock && ret == WaitScan(0, false))
    || (ch.ChanCond? && lk == Monitor(ch.m) && ret == CondHold(ch.m, {}))
  }

  ghost predicate WokenArgs(s: State, lk: Lock, ret: Pc) {
    || (lk.Inner? && lk.l < |s.sleeplocks| && ret == SlTest(lk.l))
    || (lk == WaitLock && ret == WaitScan(0, false))
    || (lk.Monitor? && ret == CondHold(lk.m, {}))
  }

  /** The lock under which processes come to wait on a channel. */
  function LockFor(ch: Chan): (l: Lock) {
    match ch
    case ChanLock(l) => Inner(l)
    case ChanCond(m, _) => Monitor(m)
    case _ => WaitLock
  }

  ghost predicate WakeArgs(s: State, p: nat, ch: Chan, lk: Lock, ret: Pc) {
    && lk == LockFor(ch)
    && (|| (ch.ChanLock? && ch.l < |s.sleeplocks| && ret == SlRelDone(ch.l))
        || (ch == ChanProc(s.initproc) && p != s.initproc && ret.ExitRep? && ret.i <= |s.procs|)
        || (ch.ChanProc? && p != s.initproc && ret == ExitLock)
        || (ch.ChanCond? && ret.CondHold? && ret.m == ch.m))
  }

  ghost predicate PcOk(s: State, p: nat, pc: Pc)
    decreases pc
  {
    var n := |s.procs|;
    match pc
    case YieldAcq(r) => HeldAt(p, r).Zero? && !r.Dead? && PcOk(s, p, r)
    case YieldSet(r) => HeldAt(p, r).Zero? && !r.Dead? && PcOk(s, p, r)
    case Resume(r) => HeldAt(p, r).Zero? && !r.Dead? && PcOk(s, p, r)
    case SleepAcq(ch, lk, r) => SleepArgs(s, p, ch, lk, r)
    case SleepRel(ch, lk, r) => SleepArgs(s, p, ch, lk, r)
    case SleepSet(ch, lk, r) => SleepArgs(s, p, ch, lk, r)
    case Woken(lk, r) => WokenArgs(s, lk, r)
    case Reacq(lk, r) => WokenArgs(s, lk, r)
    case WakeNext(ch, i, lk, r) => i <= n && WakeArgs(s, p, ch, lk, r)
    case WakeHave(ch, i, lk, r) => i < n && i != p && WakeArgs(s, p, ch, lk, r)
    case SlAcq(l) => l < |s.sleeplocks|
    case SlTest(l) => l < |s.sleeplocks|
    case SlDone(l) => l < |s.sleeplocks|
    case SlRelAcq(l) => l < |s.sleeplocks|
    case SlRelSet(l) => l < |s.sleeplocks|
    case SlRelDone(l) => l < |s.sleeplocks|
    case ExitAcq => p != s.initproc
    case ExitRep(i) => i <= n && p != s.initproc
    case ExitLock => p != s.initproc
    case ExitSet => p != s.initproc
    case ExitRel => p != s.initproc
    case ExitSched => p != s.initproc
    case Dead => p != s.initproc
    case WaitScan(i, _) => i <= n
    case WaitHave(i, _) => i < n
    case ForkScan(i) => i <= n
    case ForkHave(i) => i < n
    case ForkPid(i) => i < n
    case ForkPid2(i) => i < n
    case ForkUsed(i) => i < n
    case ForkWAcq(i) => i < n
    case ForkWSet(i) => i < n
    case ForkLAcq(i) => i < n
    case ForkLSet(i) => i < n
    case KillScan(_, i) => i <= n
    case KillHave(_, i) => i < n
    case _ => true
  }

  ghost predicate PcsOk(s: State) {
    s.initproc < |s.procs| && forall p :: 0 <= p < |s.procs| ==> PcOk(s, p, s.procs[p].pc)
  }

  // ---------------------------------------------------------------------------
  // Who runs where
  // ---------------------------------------------------------------------------

  ghost predicate CpuOk(s: State, c: nat)
    requires c < |s.cpus|
  {
    var n := |s.procs|;
    match s.cpus[c].thr
    case OnProc(p) => p < n && s.cpus[c].proc == p && s.procs[p].on == c
    case OnSched(SScan(i)) => i <= n && s.cpus[c].proc == -1
    case OnSched(SHold(i)) => i < n && s.cpus[c].proc == -1
    case OnSched(SBack(i)) => i < n && s.cpus[c].proc == i && s.procs[i].on == -1
  }

  /** A process on a CPU is RUNNING, until exit has marked it ZOMBIE. */
  ghost predicate OnOk(st: ProcState, pc: Pc) {
    !pc.Dead? && st == (if pc.ExitRel? || pc.ExitSched? then ZOMBIE else RUNNING)
  }

  ghost predicate OffOk(st: ProcState, pc: Pc, chan: Chan) {
    match st
    case UNUSED => pc.Idle?
    case USED => pc.Idle? || (pc.Resume? && pc.ret.Idle?)
    case RUNNABLE => pc.Resume? || pc.Woken?
    case SLEEPING => pc.Woken? && chan != NoChan && pc.lk == LockFor(chan)
    case ZOMBIE => pc.Dead?
    case RUNNING => false
  }

  ghost predicate ProcOk(s: State, p: nat)
    requires p < |s.procs|
  {
    var r := s.procs[p];
    if 0 <= r.on < |s.cpus| then s.cpus[r.on].thr == OnProc(p) && OnOk(r.st, r.pc)
    else r.on == -1 && OffOk(r.st, r.pc, r.chan)
  }

  ghost predicate ThreadsOk(s: State) {
    && (forall c :: 0 <= c < |s.cpus| ==> CpuOk(s, c))
    && (forall p :: 0 <= p < |s.procs| ==> ProcOk(s, p))
  }

  // ---------------------------------------------------------------------------
  // Locks: the holder of every lock is the CPU whose thread took it
  // ---------------------------------------------------------------------------

  ghost predicate LocksOk(s: State) {
    && (forall l :: l in s.locks ==> s.locks[l] < |s.cpus| && In(l, HeldOn(s, s.locks[l])))
    && (forall c, l :: 0 <= c < |s.cpus| && In(l, HeldOn(s, c)) ==> l in s.locks && s.locks[l] == c)
    && (forall c :: 0 <= c < |s.cpus| ==> s.cpus[c].noff == Count(HeldOn(s, c)))
  }

  /** Interrupts are off while a CPU holds a lock or runs a handler, and a thread that is interrupted holds nothing. */
  ghost predicate IntrOk(s: State, c: nat)
    requires c < |s.cpus|
  {
    var k := s.cpus[c];
    && (k.noff > 0 ==> !k.ie)
    && (k.intr.NoIntr? || (!k.ie && HeldBy(s, k.thr).Zero?))
    && (k.intr.INext? ==> k.intr.i <= |s.procs|)
    && (k.intr.IHave? ==> k.intr.i < |s.procs| && k.intr.i != k.proc)
  }

  ghost predicate IntrsOk(s: State) { forall c :: 0 <= c < |s.cpus| ==> IntrOk(s, c) }

  ghost predicate Base(s: State) { PcsOk(s) && ThreadsOk(s) && LocksOk(s) && IntrsOk(s) }

  lemma Excludes(s: State, c: nat, d: nat, l: Lock)
    requires LocksOk(s) && c < |s.cpus| && d < |s.cpus|
    requires In(l, HeldOn(s, c)) && In(l, HeldOn(s, d))
    ensures c == d
  {
    assert s.locks[l] == c;
    assert s.locks[l] == d;
  }

  /** A process whose lock another thread holds is off every CPU unless it is RUNNING. */
  lemma OffCpu(s: State, c: nat, i: nat)
    requires Base(s) && c < |s.cpus| && i < |s.procs|
    requires In(PLock(i), HeldOn(s, c)) && s.cpus[c].thr != OnProc(i) && s.procs[i].st != RUNNING
    ensures s.procs[i].on == -1
  {
    var d := s.procs[i].on;
    assert ProcOk(s, i);
    if 0 <= d < |s.cpus| {
      assert IntrOk(s, d);
      assert In(PLock(i), HeldOn(s, d));
      Excludes(s, c, d, PLock(i));
    }
  }

  // ---------------------------------------------------------------------------
  // Waiting, families, pids and sleep locks
  // ---------------------------------------------------------------------------

  /** `p` has committed itself to sleep on `ch`: it has let go of the lock and nothing but a wakeup lets it run. */
  ghost predicate Waiting(r: Proc, ch: Chan) {
    (r.pc.SleepSet? && r.pc.ch == ch) || (r.st == SLEEPING && r.chan == ch)
  }

  ghost predicate NoneWaiting(s: State, ch: Chan, k: nat) {
    forall q :: 0 <= q < k && q < |s.procs| ==> !Waiting(s.procs[q], ch)
  }

  ghost predicate NoChild(s: State, p: nat, k: nat) {
    forall j :: 0 <= j < k && j < |s.procs| ==> s.procs[j].parent != p
  }

  ghost predicate NoZombie(s: State, p: nat, k: nat) {
    forall j :: 0 <= j < k && j < |s.procs| ==> !(s.procs[j].parent == p && s.procs[j].st == ZOMBIE)
  }

  ghost predicate OwnsNoLock(s: State, p: nat) {
    forall l :: 0 <= l < |s.sleeplocks| ==> s.sleeplocks[l].owner != p
  }

  /** A child that fork of process p is creating. */
  ghost predicate Creating(s: State, p: nat, i: nat, parent: int, pc: Pc) {
    && i < |s.procs| && s.procs[i].st == USED && s.procs[i].forker == p
    && s.procs[i].parent == parent && s.procs[i].pc == pc
  }

  ghost predicate AfterWake(s: State, p: nat, ch: Chan, ret: Pc)
    requires p < |s.procs|
  {
    match ret
    case ExitRep(j) => NoChild(s, p, j) && OwnsNoLock(s, p)
    case ExitLock =>
      && NoChild(s, p, |s.procs|) && OwnsNoLock(s, p)
      && s.procs[p].parent >= 0 && ch == ChanProc(s.procs[p].parent)
    case _ => true
  }

  /** What is known at each place of a thread: the loop invariants of wakeup, exit, wait and fork. */
  ghost predicate At(s: State, p: nat, pc: Pc)
    requires p < |s.procs|
  {
    var n := |s.procs|;
    match pc
    case WakeNext(ch, i, _, r) => NoneWaiting(s, ch, i) && AfterWake(s, p, ch, r)
    case WakeHave(ch, i, _, r) => NoneWaiting(s, ch, i) && AfterWake(s, p, ch, r)
    case SleepAcq(ch, _, _) => AsleepFor(s, p, ch)
    case SleepRel(ch, _, _) => AsleepFor(s, p, ch)
    case SlRelAcq(l) => l < |s.sleeplocks| && s.sleeplocks[l].owner == p
    case SlRelSet(l) => l < |s.sleeplocks| && s.sleeplocks[l].owner == p
    case ExitAcq => OwnsNoLock(s, p)
    case ExitRep(i) => NoChild(s, p, i) && OwnsNoLock(s, p)
    case ExitLock => NoChild(s, p, n) && OwnsNoLock(s, p) && ParentAwake(s, p)
    case ExitSet => NoChild(s, p, n) && OwnsNoLock(s, p) && ParentAwake(s, p)
    case WaitScan(i, kids) => NoZombie(s, p, i) && (kids <==> !NoChild(s, p, i))
    case WaitHave(i, kids) => NoZombie(s, p, i) && (kids <==> !NoChild(s, p, i)) && i < n && s.procs[i].parent == p
    case WaitKAcq => NoZombie(s, p, n) && !NoChild(s, p, n)
    case WaitKHave => NoZombie(s, p, n) && !NoChild(s, p, n)
    case ForkPid(i) => i < n && s.procs[i].st == UNUSED
    case ForkPid2(i) => i < n && s.procs[i].st == UNUSED
    case ForkUsed(i) => Creating(s, p, i, -1, Idle)
    case ForkWAcq(i) => Creating(s, p, i, -1, Resume(Idle))
    case ForkWSet(i) => Creating(s, p, i, -1, Resume(Idle))
    case ForkLAcq(i) => Creating(s, p, i, p, Resume(Idle))
    case ForkLSet(i) => Creating(s, p, i, p, Resume(Idle))
    case _ => true
  }

  /** The condition under which a process goes to sleep. */
  ghost predicate AsleepFor(s: State, p: nat, ch: Chan) {
    match ch
    case NoChan => true
    case ChanLock(l) => l < |s.sleeplocks| && s.sleeplocks[l].locked
    case ChanProc(_) => NoZombie(s, p, |s.procs|)
    case ChanCond(_, _) => ch !in s.conds
  }

  ghost predicate ParentAwake(s: State, p: nat)
    requires p < |s.procs|
  {
    0 <= s.procs[p].parent < |s.procs| && !Waiting(s.procs[s.procs[p].parent], ChanProc(s.procs[p].parent))
  }

  ghost predicate PlacesOk(s: State) {
    forall p :: 0 <= p < |s.procs| ==> At(s, p, Core(s.procs[p].pc))
  }

  /** Parents are alive, init is alive, and every process that has run has a parent. */
  ghost predicate Kin(s: State, j: nat)
    requires j < |s.procs|
  {
    var r := s.procs[j];
    && -1 <= r.parent < |s.procs| && r.parent != j
    && (r.parent >= 0 ==> Alive(s.procs[r.parent]))
    && (r.st == UNUSED || j == s.initproc ==> r.parent == -1)
    && (r.st == USED || r.st == UNUSED || j == s.initproc || r.parent >= 0)
  }

  ghost predicate FamilyOk(s: State) {
    && s.initproc < |s.procs| && Alive(s.procs[s.initproc])
    && forall j :: 0 <= j < |s.procs| ==> Kin(s, j)
  }

  /** Pids are handed out once, and wait returns each at most once. */
  ghost predicate PidsOk(s: State) {
    && s.nextpid >= 1
    && (forall p :: 0 <= p < |s.procs| && s.procs[p].st == UNUSED ==> s.procs[p].pid == 0)
    && (forall p :: 0 <= p < |s.procs| && s.procs[p].st != UNUSED ==>
          1 <= s.procs[p].pid < s.nextpid && s.procs[p].pid !in s.waited)
    && (forall p, q :: 0 <= p < q < |s.procs| && s.procs[p].st != UNUSED && s.procs[q].st != UNUSED ==>
          s.procs[p].pid != s.procs[q].pid)
    && (forall p :: 0 <= p < |s.procs| && s.procs[p].st == ZOMBIE ==> s.procs[p].pid in s.exited)
    && (forall i :: 0 <= i < |s.waited| ==> s.waited[i] in s.exited && s.waited[i] < s.nextpid)
    && (forall i, j :: 0 <= i < j < |s.waited| ==> s.waited[i] != s.waited[j])
  }

  /** A sleep lock is locked exactly while one live process owns it, and records that process's pid. */
  ghost predicate SleepLocksOk(s: State) {
    forall l :: 0 <= l < |s.sleeplocks| ==>
      var k := s.sleeplocks[l];
      if k.locked then 0 <= k.owner < |s.procs| && Alive(s.procs[k.owner]) && k.pid == s.procs[k.owner].pid
      else k.owner == -1
  }

  predicate InWakeup(pc: Pc, ch: Chan) { (pc.WakeNext? || pc.WakeHave?) && pc.ch == ch }

  /** A thread that still has to call wakeup(ch) before it lets go of the lock. */
  predicate Due(pc: Pc, ch: Chan) { pc.CondHold? && ch.ChanCond? && ch.m == pc.m && ch.k in pc.due }

  /** A thread that is in wakeup(ch), or will be before it lets go of the lock. */
  predicate Owes(pc: Pc, ch: Chan) {
    InWakeup(pc, ch) || Due(pc, ch) || ((pc.WakeNext? || pc.WakeHave?) && Due(pc.ret, ch))
  }

  predicate IntrOwes(h: Intr, ch: Chan) {
    && ch.ChanCond? && !h.NoIntr? && h.m == ch.m
    && (|| ((h.INext? || h.IHave?) && h.k == ch.k)
        || ((h.IHold? || h.INext? || h.IHave?) && ch.k in h.due))
  }

  predicate OwesOn(s: State, c: nat, ch: Chan)
    requires c < |s.cpus|
  {
    if s.cpus[c].intr.NoIntr? then
      s.cpus[c].thr.OnProc? && s.cpus[c].thr.p < |s.procs| && Owes(s.procs[s.cpus[c].thr.p].pc, ch)
    else IntrOwes(s.cpus[c].intr, ch)
  }

  /** The CPU that holds the lock of channel `ch` is in wakeup(ch), or will be before it lets go of the lock. */
  ghost predicate WakerOn(s: State, ch: Chan) {
    var l := LockFor(ch);
    l in s.locks && s.locks[l] < |s.cpus| && OwesOn(s, s.locks[l], ch)
  }

  /** What a process that waits on `ch` waits for has happened. */
  ghost predicate Happened(s: State, p: nat, ch: Chan) {
    match ch
    case NoChan => false
    case ChanLock(l) => l < |s.sleeplocks| && !s.sleeplocks[l].locked
    case ChanProc(q) => q == p && !NoZombie(s, p, |s.procs|)
    case ChanCond(_, _) => ch in s.conds
  }

  /** No lost wakeup: whoever waits for something that has happened is about to be woken. */
  ghost predicate WakeupsOk(s: State) {
    forall p, ch :: 0 <= p < |s.procs| && Waiting(s.procs[p], ch) && Happened(s, p, ch) ==> WakerOn(s, ch)
  }

  /** The loop invariant of wakeup in a handler. */
  ghost predicate HandlerOk(s: State, c: nat)
    requires c < |s.cpus|
  {
    var h := s.cpus[c].intr;
    h.INext? || h.IHave? ==> NoneWaiting(s, ChanCond(h.m, h.k), h.i)
  }

  ghost predicate HandlersOk(s: State) { forall c :: 0 <= c < |s.cpus| ==> HandlerOk(s, c) }

  /** intena is what the thread found before its outermost acquire, on whatever CPU it has come to run. */
  ghost predicate FlagOk(s: State, p: nat)
    requires p < |s.procs|
  {
    var r := s.procs[p];
    if 0 <= r.on < |s.cpus| then !HeldAt(p, r.pc).Zero? ==> s.cpus[r.on].intena == r.before
    else r.saved.Was? ==> r.saved.b == r.before
  }

  ghost predicate FlagsOk(s: State) { forall p :: 0 <= p < |s.procs| ==> FlagOk(s, p) }

  ghost predicate Inv(s: State) {
    && Base(s) && PlacesOk(s) && FamilyOk(s) && PidsOk(s) && SleepLocksOk(s)
    && HandlersOk(s) && FlagsOk(s) && WakeupsOk(s)
  }

  // ---------------------------------------------------------------------------
  // Every step keeps the base
  // ---------------------------------------------------------------------------

  ghost predicate Acts(s: State, c: nat, p: nat) {
    c < |s.cpus| && p < |s.procs| && s.cpus[c].thr == OnProc(p) && s.cpus[c].intr.NoIntr?
  }

  ghost predicate SameShape(s: State, s': State) {
    |s'.procs| == |s.procs| && |s'.cpus| == |s.cpus| && |s'.sleeplocks| == |s.sleeplocks| && s'.initproc == s.initproc
  }

  /** The order in which locks are taken. */
  function Rank(l: Lock): (r: nat) {
    match l
    case Inner(_) => 0
    case Monitor(_) => 0
    case WaitLock => 0
    case PLock(_) => 1
    case PidLock => 2
  }

  /** A lock operation allowed to a thread that holds `h`, after which it holds `h'`. */
  ghost predicate Delta(h: Held, op: LockOp, h': Held) {
    match op
    case NoOp => h' == h
    case Take(l) => (h.Zero? && h' == One(l)) || (h.One? && Rank(h.a) < Rank(l) && h' == Two(h.a, l))
    case Drop(l) =>
      || (h == One(l) && h'.Zero?)
      || (h.Two? && h.a != h.b && ((l == h.a && h' == One(h.b)) || (l == h.b && h' == One(h.a))))
  }

  /** What a step may do to another process: leave its thread alone, or move it between resting states. */
  ghost predicate TouchOk(r: Proc, r': Proc) {
    && r'.on == r.on
    && (r'.pc == r.pc || r'.pc.Idle? || (r'.pc.Resume? && r'.pc.ret.Idle?))
    && ((r'.st == r.st && r'.pc == r.pc && r'.chan == r.chan) || (r.on == -1 && OffOk(r'.st, r'.pc, r'.chan)))
  }

  ghost predicate TouchesOk(s: State, p: nat, e: Effect) {
    -1 <= e.who < |s.procs| && e.who != p && (e.who >= 0 ==> TouchOk(s.procs[e.who], e.them))
  }

  /** acquire never takes a lock its CPU holds, release always one it holds, and sched is called with p->lock alone. */
  ghost predicate HoldsOk(s: State, p: nat, e: Effect)
    requires p < |s.procs|
  {
    if e.sched then OffOk(e.me.st, e.me.pc, e.me.chan) && HeldAt(p, s.procs[p].pc) == One(PLock(p)) && e.op == NoOp
    else OnOk(e.me.st, e.me.pc) && Delta(HeldAt(p, s.procs[p].pc), e.op, HeldAt(p, e.me.pc))
  }

  ghost predicate Local(s: State, p: nat, e: Effect)
    requires p < |s.procs|
  {
    TouchesOk(s, p, e) && HoldsOk(s, p, e) && PcOk(s, p, e.me.pc)
  }

  lemma {:induction false} PcStable(s: State, p: nat, pc: Pc, s': State)
    requires SameShape(s, s') && PcOk(s, p, pc)
    ensures PcOk(s', p, pc)
    decreases pc
  {
    match pc
    case YieldAcq(r) => PcStable(s, p, r, s');
    case YieldSet(r) => PcStable(s, p, r, s');
    case Resume(r) => PcStable(s, p, r, s');
    case _ =>
  }

  lemma PcsKept(s: State, c: nat, p: nat, e: Effect, s': State)
    requires PcsOk(s) && Acts(s, c, p) && Local(s, p, e) && Apply(s, c, p, e, s')
    ensures SameShape(s, s') && PcsOk(s')
  {
    forall q | 0 <= q < |s'.procs| ensures PcOk(s', q, s'.procs[q].pc) {
      if q == p {
        PcStable(s, p, e.me.pc, s');
      } else {
        assert PcOk(s, q, s.procs[q].pc);
        PcStable(s, q, s.procs[q].pc, s');
      }
    }
  }

  lemma ThreadsKept(s: State, c: nat, p: nat, e: Effect, s': State)
    requires PcsOk(s) && ThreadsOk(s) && Acts(s, c, p) && Local(s, p, e) && Apply(s, c, p, e, s')
    ensures ThreadsOk(s')
  {
    hide PcsOk, PcOk, LockStep, HeldAt, OnOk, OffOk, Delta;
    assert ProcOk(s, p) && CpuOk(s, c);
    forall d | 0 <= d < |s'.cpus| ensures CpuOk(s', d) {
      assert CpuOk(s, d);
    }
    forall q | 0 <= q < |s'.procs| ensures ProcOk(s', q) {
      assert ProcOk(s, q);
    }
  }

  lemma LocksKept(s: State, c: nat, p: nat, e: Effect, s': State)
    requires Base(s) && Acts(s, c, p) && Local(s, p, e) && Apply(s, c, p, e, s')
    ensures LocksOk(s')
  {
    forall d | 0 <= d < |s'.cpus| && d != c ensures HeldOn(s', d) == HeldOn(s, d) {
      OthersHold(s, c, p, e, s', d);
    }
    MineHeld(s, c, p, e, s');
    LocksMoved(s, c, if e.sched then NoOp else e.op, s');
  }

  /** What another CPU holds does not change. */
  lemma OthersHold(s: State, c: nat, p: nat, e: Effect, s': State, d: nat)
    requires ThreadsOk(s) && Acts(s, c, p) && Local(s, p, e) && Apply(s, c, p, e, s') && d < |s.cpus| && d != c
    ensures HeldOn(s', d) == HeldOn(s, d)
  {
    hide PcOk, LockStep, HeldAt, OnOk, OffOk, Delta;
    OthersStay(s, c, p, e, s', d);
  }

  lemma MineHeld(s: State, c: nat, p: nat, e: Effect, s': State)
    requires Acts(s, c, p) && Local(s, p, e) && Apply(s, c, p, e, s')
    ensures Delta(HeldOn(s, c), e.op, HeldOn(s', c))
  {
    hide PcOk, LockStep, HeldAt, OnOk, OffOk;
  }

  lemma IntrsKept(s: State, c: nat, p: nat, e: Effect, s': State)
    requires Base(s) && Acts(s, c, p) && Local(s, p, e) && Apply(s, c, p, e, s')
    ensures IntrsOk(s')
  {
    hide PcsOk, PcOk, HeldAt, OnOk, OffOk;
    forall d | 0 <= d < |s'.cpus| ensures IntrOk(s', d) {
      assert IntrOk(s, d) && CpuOk(s, d) && CpuOk(s, c);
      if d != c && !s.cpus[d].intr.NoIntr? {
        OthersStay(s, c, p, e, s', d);
      }
    }
  }

  /** A thread on another CPU holds what it held. */
  lemma OthersStay(s: State, c: nat, p: nat, e: Effect, s': State, d: nat)
    requires ThreadsOk(s) && Acts(s, c, p) && Local(s, p, e) && Apply(s, c, p, e, s') && d < |s.cpus| && d != c
    ensures HeldBy(s', s'.cpus[d].thr) == HeldBy(s, s.cpus[d].thr) && s'.cpus[d] == s.cpus[d]
  {
    hide PcOk, LockStep, HeldAt, OnOk, OffOk, Delta;
    assert CpuOk(s, d) && CpuOk(s, c);
  }

  /** A lock operation of CPU c. */
  ghost predicate LockMove(s: State, c: nat, op: LockOp, s': State) {
    && c < |s.cpus| && |s'.cpus| == |s.cpus| && LockStep(s, c, op, s')
    && (forall d :: 0 <= d < |s.cpus| && d != c ==> HeldOn(s', d) == HeldOn(s, d) && s'.cpus[d].noff == s.cpus[d].noff)
    && Delta(HeldOn(s, c), op, HeldOn(s', c))
  }

  lemma HolderMoved(s: State, c: nat, op: LockOp, s': State, l: Lock)
    requires LocksOk(s) && LockMove(s, c, op, s') && l in s'.locks
    ensures s'.locks[l] < |s'.cpus| && In(l, HeldOn(s', s'.locks[l]))
  {
    if l in s.locks {
      assert In(l, HeldOn(s, s.locks[l]));
    }
    hide HeldOn, LocksOk;
  }

  lemma HeldMoved(s: State, c: nat, op: LockOp, s': State, d: nat, l: Lock)
    requires LocksOk(s) && LockMove(s, c, op, s') && d < |s'.cpus| && In(l, HeldOn(s', d))
    ensures l in s'.locks && s'.locks[l] == d
  {
    if In(l, HeldOn(s, d)) {
      assert s.locks[l] == d;
    }
    if op.Drop? {
      assert In(op.l, HeldOn(s, c));
      assert s.locks[op.l] == c;
    }
    hide HeldOn, LocksOk;
  }

  lemma LocksMoved(s: State, c: nat, op: LockOp, s': State)
    requires LocksOk(s) && LockMove(s, c, op, s')
    ensures LocksOk(s')
  {
    hide HeldOn;
    forall l | l in s'.locks ensures s'.locks[l] < |s'.cpus| && In(l, HeldOn(s', s'.locks[l])) {
      HolderMoved(s, c, op, s', l);
    }
    forall d, l | 0 <= d < |s'.cpus| && In(l, HeldOn(s', d)) ensures l in s'.locks && s'.locks[l] == d {
      HeldMoved(s, c, op, s', d, l);
    }
  }

  lemma BaseKept(s: State, c: nat, p: nat, e: Effect, s': State)
    requires Base(s) && Acts(s, c, p) && Local(s, p, e) && Apply(s, c, p, e, s')
    ensures Base(s') && SameShape(s, s')
  {
    hide PcsOk, ThreadsOk, LocksOk, IntrsOk, Local, Apply, Acts;
    PcsKept(s, c, p, e, s');
    IntrsKept(s, c, p, e, s');
    ThreadsKept(s, c, p, e, s');
    LocksKept(s, c, p, e, s');
  }
}
