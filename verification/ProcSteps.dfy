/**
  What each step of a process can do, one operation at a time.
 */
module ProcSteps {
  import opened ProcMachine
  import opened ProcInvariant

  /** The ways a step of p changes the record of another process i. */
  ghost predicate Touch(s: State, p: nat, e: Effect)
    requires p < |s.procs| && 0 <= e.who < |s.procs|
  {
    var i, pc := e.who, s.procs[p].pc;
    var r, r' := s.procs[i], e.them;
    || (r.st == SLEEPING && r' == r.(st := RUNNABLE) && pc.WakeHave? && pc.i == i && pc.ch == r.chan)
    || (r' == r.(killed := true, st := if r.st == SLEEPING then RUNNABLE else r.st)
        && pc.KillHave? && pc.i == i && pc.pid == r.pid)
    || (pc.ExitRep? && pc.i == i && r.parent == p && r' == r.(parent := s.initproc))
    || (pc.WaitHave? && pc.i == i && r.st == ZOMBIE && r' == Freed(r) && e.waited == s.waited + [r.pid])
    || (pc.ForkPid2? && pc.i == i && r' == r.(pid := s.nextpid, st := USED, forker := p) && e.nextpid == s.nextpid + 1)
    || (pc.ForkUsed? && pc.i == i && (r' == r.(pc := Resume(Idle)) || r' == Freed(r)))
    || (pc.ForkWSet? && pc.i == i && r' == r.(parent := p))
    || (pc.ForkLSet? && pc.i == i && r' == r.(st := RUNNABLE, forker := -1))
  }

  /** Only a thread with Monitor(m) changes the conditions under it, and it owes a wakeup for one it makes true. */
  ghost predicate CondsMoved(s: State, p: nat, e: Effect)
    requires p < |s.procs|
  {
    var pc := s.procs[p].pc;
    || e.conds == s.conds
    || (pc.CondHold?
        && (forall ch :: (ch in e.conds <==> ch in s.conds) || (ch.ChanCond? && ch.m == pc.m))
        && (forall ch :: ch in e.conds && ch !in s.conds ==> Due(e.me.pc, ch)))
  }

  /** What a step of p does to p itself, to the sleep locks and to the records of the run. */
  ghost predicate Mine(s: State, p: nat, e: Effect)
    requires p < |s.procs|
  {
    var r, r', pc := s.procs[p], e.me, s.procs[p].pc;
    && r'.pid == r.pid && r'.parent == r.parent && r'.forker == r.forker && r'.before == r.before
    && (r'.st == ZOMBIE <==> r.st == ZOMBIE || pc.ExitSet?)
    && (Alive(r) ==> Alive(r') || pc.ExitSet?)
    && (|| r'.st == r.st || (pc.YieldSet? && r'.st == RUNNABLE) || (pc.ExitSet? && r'.st == ZOMBIE)
        || (pc.SleepSet? && r'.st == SLEEPING && r'.chan == pc.ch))
    && (r'.killed == r.killed || (r'.killed && pc == KillHave(r.pid, p)))
    && (forall ch :: Waiting(r', ch) ==> Waiting(r, ch) || (pc.SleepRel? && pc.ch == ch))
    && (e.nextpid == s.nextpid || (pc.ForkPid2? && e.who == pc.i))
    && e.exited == (if pc.ExitSet? then s.exited + {r.pid} else s.exited)
    && (e.waited == s.waited || (pc.WaitHave? && e.who == pc.i))
    && (|| e.which == -1
        || (0 <= e.which < |s.sleeplocks| && pc.SlTest? && pc.l == e.which && !s.sleeplocks[e.which].locked &&
            e.lock == SleepLock(true, r.pid, p))
        || (0 <= e.which < |s.sleeplocks| && pc.SlRelSet? && pc.l == e.which && e.lock == SleepLock(false, 0, -1)))
    && CondsMoved(s, p, e)
  }

  ghost predicate Facts(s: State, p: nat, e: Effect)
    requires p < |s.procs|
  {
    && Local(s, p, e) && Mine(s, p, e) && (e.who >= 0 ==> Touch(s, p, e))
  }

  /** What is known of a process about to take a step. */
  ghost predicate Ready(s: State, c: nat, p: nat) {
    Base(s) && PlacesOk(s) && FamilyOk(s) && Acts(s, c, p)
  }

  /** A process whose lock the acting thread holds is at rest, unless it is running. */
  lemma AtRest(s: State, c: nat, p: nat, i: nat)
    requires Ready(s, c, p) && i < |s.procs| && i != p && In(PLock(i), HeldAt(p, s.procs[p].pc)) &&
            s.procs[i].st != RUNNING
    ensures s.procs[i].on == -1 && OffOk(s.procs[i].st, s.procs[i].pc, s.procs[i].chan)
  {
    hide PlacesOk, FamilyOk, PcsOk;
    OffCpu(s, c, i);
    assert ProcOk(s, i);
  }

  /** A process with a different state is a different process. */
  lemma Running(s: State, c: nat, p: nat)
    requires Ready(s, c, p)
    ensures s.procs[p].on == c && OnOk(s.procs[p].st, s.procs[p].pc) && PcOk(s, p, s.procs[p].pc)
    ensures At(s, p, Core(s.procs[p].pc)) && Kin(s, p)
  {
    hide LocksOk, At, Kin, PcOk, OnOk, OffOk;
    assert CpuOk(s, c) && ProcOk(s, p);
  }

  /** The process that fork is creating is off every CPU. */
  lemma Child(s: State, c: nat, p: nat, i: nat)
    requires Ready(s, c, p) && i < |s.procs|
    requires var pc := s.procs[p].pc; pc == ForkPid2(i) || pc == ForkUsed(i) || pc == ForkWSet(i) || pc == ForkLSet(i)
    ensures i != p && s.procs[i].on == -1
    ensures s.procs[i].st == (if s.procs[p].pc.ForkPid2? then UNUSED else USED)
    ensures s.procs[i].pc == (if s.procs[p].pc.ForkPid2? || s.procs[p].pc.ForkUsed? then Idle else Resume(Idle))
  {
    Running(s, c, p);
    assert ProcOk(s, i);
    hide PlacesOk, FamilyOk, LocksOk, PcsOk, ThreadsOk;
  }

  lemma BeginsTouch(s: State, p: nat, e: Effect)
    requires p < |s.procs| && Begins(s, p, e)
    ensures TouchesOk(s, p, e) && e.who < 0
  {
    hide HeldAt;
  }

  lemma BeginsHolds(s: State, p: nat, e: Effect)
    requires p < |s.procs| && OnOk(s.procs[p].st, s.procs[p].pc) && Begins(s, p, e)
    ensures HoldsOk(s, p, e)
  {
  }

  lemma BeginsPc(s: State, p: nat, e: Effect)
    requires p < |s.procs| && s.initproc < |s.procs| && PcOk(s, p, s.procs[p].pc) && Begins(s, p, e)
    ensures PcOk(s, p, e.me.pc)
  {
  }

  lemma BeginsMine(s: State, p: nat, e: Effect)
    requires p < |s.procs| && OnOk(s.procs[p].st, s.procs[p].pc) && Begins(s, p, e)
    ensures Mine(s, p, e)
  {
    hide HeldAt;
  }

  lemma YieldsTouch(s: State, p: nat, e: Effect)
    requires p < |s.procs| && Yields(s, p, e)
    ensures TouchesOk(s, p, e) && e.who < 0
  {
    hide HeldAt;
  }

  lemma YieldsHolds(s: State, p: nat, e: Effect)
    requires p < |s.procs| && OnOk(s.procs[p].st, s.procs[p].pc) && PcOk(s, p, s.procs[p].pc) && Yields(s, p, e)
    ensures HoldsOk(s, p, e)
  {
  }

  lemma YieldsPc(s: State, p: nat, e: Effect)
    requires p < |s.procs| && s.initproc < |s.procs| && PcOk(s, p, s.procs[p].pc) && Yields(s, p, e)
    ensures PcOk(s, p, e.me.pc)
  {
  }

  lemma YieldsMine(s: State, p: nat, e: Effect)
    requires p < |s.procs| && OnOk(s.procs[p].st, s.procs[p].pc) && PcOk(s, p, s.procs[p].pc) && Yields(s, p, e)
    ensures Mine(s, p, e)
  {
  }

  lemma SleepsTouch(s: State, p: nat, e: Effect)
    requires p < |s.procs| && Sleeps(s, p, e)
    ensures TouchesOk(s, p, e) && e.who < 0
  {
    hide HeldAt;
  }

  lemma SleepsHolds(s: State, p: nat, e: Effect)
    requires p < |s.procs| && OnOk(s.procs[p].st, s.procs[p].pc) && PcOk(s, p, s.procs[p].pc) && Sleeps(s, p, e)
    ensures HoldsOk(s, p, e)
  {
  }

  lemma SleepsPc(s: State, p: nat, e: Effect)
    requires p < |s.procs| && s.initproc < |s.procs| && PcOk(s, p, s.procs[p].pc) && Sleeps(s, p, e)
    ensures PcOk(s, p, e.me.pc)
  {
  }

  lemma SleepsMine(s: State, p: nat, e: Effect)
    requires p < |s.procs| && OnOk(s.procs[p].st, s.procs[p].pc) && PcOk(s, p, s.procs[p].pc) && Sleeps(s, p, e)
    ensures Mine(s, p, e)
  {
    hide HeldAt;
  }

  lemma WakesHolds(s: State, p: nat, e: Effect)
    requires p < |s.procs| && OnOk(s.procs[p].st, s.procs[p].pc) && PcOk(s, p, s.procs[p].pc) && Wakes(s, p, e)
    ensures HoldsOk(s, p, e)
  {
  }

  lemma WakesPc(s: State, p: nat, e: Effect)
    requires p < |s.procs| && s.initproc < |s.procs| && PcOk(s, p, s.procs[p].pc) && Wakes(s, p, e)
    ensures PcOk(s, p, e.me.pc)
  {
  }

  lemma WakesMine(s: State, p: nat, e: Effect)
    requires p < |s.procs| && OnOk(s.procs[p].st, s.procs[p].pc) && PcOk(s, p, s.procs[p].pc) && Wakes(s, p, e)
    ensures Mine(s, p, e)
  {
    hide HeldAt;
  }

  lemma WakesTouch(s: State, c: nat, p: nat, e: Effect)
    requires Ready(s, c, p) && Wakes(s, p, e)
    ensures TouchesOk(s, p, e) && (e.who >= 0 ==> Touch(s, p, e))
  {
    hide At, Kin;
    Running(s, c, p);
    if s.procs[p].pc.WakeHave? && s.procs[s.procs[p].pc.i].st == SLEEPING { AtRest(s, c, p, s.procs[p].pc.i); }
    hide PcsOk, ThreadsOk, LocksOk, PlacesOk, FamilyOk, HeldAt;
  }

  lemma UsesSleepLockTouch(s: State, p: nat, e: Effect)
    requires p < |s.procs| && UsesSleepLock(s, p, e)
    ensures TouchesOk(s, p, e) && e.who < 0
  {
    hide HeldAt;
  }

  lemma UsesSleepLockHolds(s: State, p: nat, e: Effect)
    requires p < |s.procs| && OnOk(s.procs[p].st, s.procs[p].pc) && UsesSleepLock(s, p, e)
    ensures HoldsOk(s, p, e)
  {
  }

  lemma UsesSleepLockPc(s: State, p: nat, e: Effect)
    requires p < |s.procs| && s.initproc < |s.procs| && PcOk(s, p, s.procs[p].pc) && UsesSleepLock(s, p, e)
    ensures PcOk(s, p, e.me.pc)
  {
  }

  lemma UsesSleepLockMine(s: State, p: nat, e: Effect)
    requires p < |s.procs| && OnOk(s.procs[p].st, s.procs[p].pc) && UsesSleepLock(s, p, e)
    ensures Mine(s, p, e)
  {
    hide HeldAt;
  }

  lemma UsesCondTouch(s: State, p: nat, e: Effect)
    requires p < |s.procs| && UsesCond(s, p, e)
    ensures TouchesOk(s, p, e) && e.who < 0
  {
    hide HeldAt;
  }

  lemma UsesCondHolds(s: State, p: nat, e: Effect)
    requires p < |s.procs| && OnOk(s.procs[p].st, s.procs[p].pc) && UsesCond(s, p, e)
    ensures HoldsOk(s, p, e)
  {
  }

  lemma UsesCondPc(s: State, p: nat, e: Effect)
    requires p < |s.procs| && s.initproc < |s.procs| && PcOk(s, p, s.procs[p].pc) && UsesCond(s, p, e)
    ensures PcOk(s, p, e.me.pc)
  {
  }

  lemma UsesCondMine(s: State, p: nat, e: Effect)
    requires p < |s.procs| && OnOk(s.procs[p].st, s.procs[p].pc) && UsesCond(s, p, e)
    ensures Mine(s, p, e)
  {
    hide HeldAt;
  }

  lemma SetsCondHolds(s: State, p: nat, e: Effect)
    requires p < |s.procs| && OnOk(s.procs[p].st, s.procs[p].pc) && SetsCond(s, p, e)
    ensures HoldsOk(s, p, e)
  {
  }

  lemma SetsCondPc(s: State, p: nat, e: Effect)
    requires p < |s.procs| && s.initproc < |s.procs| && PcOk(s, p, s.procs[p].pc) && SetsCond(s, p, e)
    ensures PcOk(s, p, e.me.pc)
  {
  }

  lemma SetsCondMine(s: State, p: nat, e: Effect)
    requires p < |s.procs| && OnOk(s.procs[p].st, s.procs[p].pc) && SetsCond(s, p, e)
    ensures Mine(s, p, e)
  {
    hide HeldAt;
  }

  lemma SetsCondTouch(s: State, p: nat, e: Effect)
    requires p < |s.procs| && SetsCond(s, p, e)
    ensures TouchesOk(s, p, e) && e.who < 0
  {
    hide HeldAt;
  }

  lemma ExitsHolds(s: State, p: nat, e: Effect)
    requires p < |s.procs| && OnOk(s.procs[p].st, s.procs[p].pc) && Exits(s, p, e)
    ensures HoldsOk(s, p, e)
  {
  }

  lemma ExitsPc(s: State, p: nat, e: Effect)
    requires p < |s.procs| && s.initproc < |s.procs| && PcOk(s, p, s.procs[p].pc) && Exits(s, p, e)
    ensures PcOk(s, p, e.me.pc)
  {
  }

  lemma ExitsMine(s: State, p: nat, e: Effect)
    requires p < |s.procs| && OnOk(s.procs[p].st, s.procs[p].pc) && Exits(s, p, e)
    ensures Mine(s, p, e)
  {
    hide HeldAt;
  }

  lemma ExitsTouch(s: State, c: nat, p: nat, e: Effect)
    requires Ready(s, c, p) && Exits(s, p, e)
    ensures TouchesOk(s, p, e) && (e.who >= 0 ==> Touch(s, p, e))
  {
    hide At;
    Running(s, c, p);
    if s.procs[p].pc.ExitRep? && s.procs[p].pc.i < |s.procs| { assert Kin(s, s.procs[p].pc.i); }
    hide PcsOk, ThreadsOk, LocksOk, PlacesOk, FamilyOk, HeldAt;
  }

  lemma DiesHolds(s: State, p: nat, e: Effect)
    requires p < |s.procs| && OnOk(s.procs[p].st, s.procs[p].pc) && Dies(s, p, e)
    ensures HoldsOk(s, p, e)
  {
  }

  lemma DiesPc(s: State, p: nat, e: Effect)
    requires p < |s.procs| && s.initproc < |s.procs| && PcOk(s, p, s.procs[p].pc) && Dies(s, p, e)
    ensures PcOk(s, p, e.me.pc)
  {
  }

  lemma DiesMine(s: State, p: nat, e: Effect)
    requires p < |s.procs| && OnOk(s.procs[p].st, s.procs[p].pc) && Dies(s, p, e)
    ensures Mine(s, p, e)
  {
    hide HeldAt;
  }

  lemma DiesTouch(s: State, p: nat, e: Effect)
    requires p < |s.procs| && Dies(s, p, e)
    ensures TouchesOk(s, p, e) && e.who < 0
  {
    hide HeldAt;
  }

  lemma ScanMovesHolds(s: State, p: nat, e: Effect)
    requires p < |s.procs| && OnOk(s.procs[p].st, s.procs[p].pc) && Scans(s, p, e) && e.op.NoOp?
    ensures HoldsOk(s, p, e)
  {
  }

  lemma ScanTakesHolds(s: State, p: nat, e: Effect)
    requires p < |s.procs| && OnOk(s.procs[p].st, s.procs[p].pc) && Scans(s, p, e) && !e.op.NoOp?
    ensures HoldsOk(s, p, e)
  {
  }

  lemma ScansHolds(s: State, p: nat, e: Effect)
    requires p < |s.procs| && OnOk(s.procs[p].st, s.procs[p].pc) && Scans(s, p, e)
    ensures HoldsOk(s, p, e)
  {
    hide Scans, HoldsOk, OnOk;
    if e.op.NoOp? {
      ScanMovesHolds(s, p, e);
    } else {
      ScanTakesHolds(s, p, e);
    }
  }

  lemma ScansPc(s: State, p: nat, e: Effect)
    requires p < |s.procs| && s.initproc < |s.procs| && PcOk(s, p, s.procs[p].pc) && Scans(s, p, e)
    ensures PcOk(s, p, e.me.pc)
  {
  }

  lemma ScansMine(s: State, p: nat, e: Effect)
    requires p < |s.procs| && OnOk(s.procs[p].st, s.procs[p].pc) && Scans(s, p, e)
    ensures Mine(s, p, e)
  {
    hide HeldAt;
  }

  lemma ScansTouch(s: State, p: nat, e: Effect)
    requires p < |s.procs| && Scans(s, p, e)
    ensures TouchesOk(s, p, e) && e.who < 0
  {
    hide HeldAt;
  }

  lemma ReapsHolds(s: State, p: nat, e: Effect)
    requires p < |s.procs| && OnOk(s.procs[p].st, s.procs[p].pc) && Reaps(s, p, e)
    ensures HoldsOk(s, p, e)
  {
  }

  lemma ReapsPc(s: State, p: nat, e: Effect)
    requires p < |s.procs| && s.initproc < |s.procs| && PcOk(s, p, s.procs[p].pc) && Reaps(s, p, e)
    ensures PcOk(s, p, e.me.pc)
  {
  }

  lemma ReapsMine(s: State, p: nat, e: Effect)
    requires p < |s.procs| && OnOk(s.procs[p].st, s.procs[p].pc) && Reaps(s, p, e)
    ensures Mine(s, p, e)
  {
    hide HeldAt;
  }

  lemma ReapsTouch(s: State, c: nat, p: nat, e: Effect)
    requires Ready(s, c, p) && Reaps(s, p, e)
    ensures TouchesOk(s, p, e) && (e.who >= 0 ==> Touch(s, p, e))
  {
    hide At, Kin;
    Running(s, c, p);
    if s.procs[p].pc.WaitHave? && s.procs[s.procs[p].pc.i].st == ZOMBIE { AtRest(s, c, p, s.procs[p].pc.i); }
    hide PcsOk, ThreadsOk, LocksOk, PlacesOk, FamilyOk, HeldAt;
  }

  lemma ReturnsTouch(s: State, p: nat, e: Effect)
    requires p < |s.procs| && Returns(s, p, e)
    ensures TouchesOk(s, p, e) && e.who < 0
  {
    hide HeldAt;
  }

  lemma ReturnsHolds(s: State, p: nat, e: Effect)
    requires p < |s.procs| && OnOk(s.procs[p].st, s.procs[p].pc) && Returns(s, p, e)
    ensures HoldsOk(s, p, e)
  {
  }

  lemma ReturnsPc(s: State, p: nat, e: Effect)
    requires p < |s.procs| && s.initproc < |s.procs| && PcOk(s, p, s.procs[p].pc) && Returns(s, p, e)
    ensures PcOk(s, p, e.me.pc)
  {
  }

  lemma ReturnsMine(s: State, p: nat, e: Effect)
    requires p < |s.procs| && OnOk(s.procs[p].st, s.procs[p].pc) && Returns(s, p, e)
    ensures Mine(s, p, e)
  {
    hide HeldAt;
  }

  lemma AllocsHolds(s: State, p: nat, e: Effect)
    requires p < |s.procs| && OnOk(s.procs[p].st, s.procs[p].pc) && Allocs(s, p, e)
    ensures HoldsOk(s, p, e)
  {
  }

  lemma AllocsPc(s: State, p: nat, e: Effect)
    requires p < |s.procs| && s.initproc < |s.procs| && PcOk(s, p, s.procs[p].pc) && Allocs(s, p, e)
    ensures PcOk(s, p, e.me.pc)
  {
  }

  lemma AllocsMine(s: State, p: nat, e: Effect)
    requires p < |s.procs| && OnOk(s.procs[p].st, s.procs[p].pc) && Allocs(s, p, e)
    ensures Mine(s, p, e)
  {
    hide HeldAt;
  }

  lemma AllocsTouch(s: State, p: nat, e: Effect)
    requires p < |s.procs| && Allocs(s, p, e)
    ensures TouchesOk(s, p, e) && e.who < 0
  {
    hide HeldAt;
  }

  lemma CreatesHolds(s: State, p: nat, e: Effect)
    requires p < |s.procs| && OnOk(s.procs[p].st, s.procs[p].pc) && Creates(s, p, e)
    ensures HoldsOk(s, p, e)
  {
  }

  lemma CreatesPc(s: State, p: nat, e: Effect)
    requires p < |s.procs| && s.initproc < |s.procs| && PcOk(s, p, s.procs[p].pc) && Creates(s, p, e)
    ensures PcOk(s, p, e.me.pc)
  {
  }

  lemma CreatesMine(s: State, p: nat, e: Effect)
    requires p < |s.procs| && OnOk(s.procs[p].st, s.procs[p].pc) && Creates(s, p, e)
    ensures Mine(s, p, e)
  {
    hide HeldAt;
  }

  lemma CreatesTouch(s: State, c: nat, p: nat, e: Effect)
    requires Ready(s, c, p) && Creates(s, p, e)
    ensures TouchesOk(s, p, e) && (e.who >= 0 ==> Touch(s, p, e))
  {
    hide At, Kin;
    Running(s, c, p);
    var pc := s.procs[p].pc;
    if pc.ForkPid2? || pc.ForkUsed? { Child(s, c, p, pc.i); }
    hide PcsOk, ThreadsOk, LocksOk, PlacesOk, FamilyOk, HeldAt;
  }

  lemma ForksHolds(s: State, p: nat, e: Effect)
    requires p < |s.procs| && OnOk(s.procs[p].st, s.procs[p].pc) && Forks(s, p, e)
    ensures HoldsOk(s, p, e)
  {
  }

  lemma ForksPc(s: State, p: nat, e: Effect)
    requires p < |s.procs| && s.initproc < |s.procs| && PcOk(s, p, s.procs[p].pc) && Forks(s, p, e)
    ensures PcOk(s, p, e.me.pc)
  {
  }

  lemma ForksMine(s: State, p: nat, e: Effect)
    requires p < |s.procs| && OnOk(s.procs[p].st, s.procs[p].pc) && Forks(s, p, e)
    ensures Mine(s, p, e)
  {
    hide HeldAt;
  }

  lemma ForksTouch(s: State, c: nat, p: nat, e: Effect)
    requires Ready(s, c, p) && Forks(s, p, e)
    ensures TouchesOk(s, p, e) && (e.who >= 0 ==> Touch(s, p, e))
  {
    hide At, Kin;
    Running(s, c, p);
    var pc := s.procs[p].pc;
    if pc.ForkWSet? || pc.ForkLSet? { Child(s, c, p, pc.i); }
    hide PcsOk, ThreadsOk, LocksOk, PlacesOk, FamilyOk, HeldAt;
  }

  lemma StartsHolds(s: State, p: nat, e: Effect)
    requires p < |s.procs| && OnOk(s.procs[p].st, s.procs[p].pc) && Starts(s, p, e)
    ensures HoldsOk(s, p, e)
  {
  }

  lemma StartsPc(s: State, p: nat, e: Effect)
    requires p < |s.procs| && s.initproc < |s.procs| && PcOk(s, p, s.procs[p].pc) && Starts(s, p, e)
    ensures PcOk(s, p, e.me.pc)
  {
  }

  lemma StartsMine(s: State, p: nat, e: Effect)
    requires p < |s.procs| && OnOk(s.procs[p].st, s.procs[p].pc) && Starts(s, p, e)
    ensures Mine(s, p, e)
  {
    hide HeldAt;
  }

  lemma StartsTouch(s: State, c: nat, p: nat, e: Effect)
    requires Ready(s, c, p) && Starts(s, p, e)
    ensures TouchesOk(s, p, e) && (e.who >= 0 ==> Touch(s, p, e))
  {
    hide At, Kin;
    Running(s, c, p);
    var pc := s.procs[p].pc;
    if pc.ForkWSet? || pc.ForkLSet? { Child(s, c, p, pc.i); }
    hide PcsOk, ThreadsOk, LocksOk, PlacesOk, FamilyOk, HeldAt;
  }

  lemma KillsHolds(s: State, p: nat, e: Effect)
    requires p < |s.procs| && OnOk(s.procs[p].st, s.procs[p].pc) && Kills(s, p, e)
    ensures HoldsOk(s, p, e)
  {
  }

  lemma KillsPc(s: State, p: nat, e: Effect)
    requires p < |s.procs| && s.initproc < |s.procs| && PcOk(s, p, s.procs[p].pc) && Kills(s, p, e)
    ensures PcOk(s, p, e.me.pc)
  {
  }

  lemma KillsMine(s: State, p: nat, e: Effect)
    requires p < |s.procs| && OnOk(s.procs[p].st, s.procs[p].pc) && Kills(s, p, e)
    ensures Mine(s, p, e)
  {
    hide HeldAt;
  }

  lemma KillsTouch(s: State, c: nat, p: nat, e: Effect)
    requires Ready(s, c, p) && Kills(s, p, e)
    ensures TouchesOk(s, p, e) && (e.who >= 0 ==> Touch(s, p, e))
  {
    hide At, Kin;
    Running(s, c, p);
    if s.procs[p].pc.KillHave? && s.procs[p].pc.i != p &&
        s.procs[s.procs[p].pc.i].st != RUNNING { AtRest(s, c, p, s.procs[p].pc.i); }
    hide PcsOk, ThreadsOk, LocksOk, PlacesOk, FamilyOk, HeldAt;
  }

}
