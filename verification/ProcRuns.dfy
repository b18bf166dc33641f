/**
  Every reachable state of the process machine satisfies its invariant, and what that means.
 */
module ProcRuns {
  import opened ProcMachine
  import opened ProcInvariant
  import opened ProcSteps
  import opened ProcFrame
  import opened ProcKept
  import opened ProcQuiet
  import opened ProcHandlers

  // ---------------------------------------------------------------------------
  // Runs
  // ---------------------------------------------------------------------------

  lemma EffectKept(s: State, c: nat, p: nat, e: Effect, s': State)
    requires Inv(s) && Acts(s, c, p) && Does(s, p, e) && Apply(s, c, p, e, s')
    ensures Inv(s')
  {
    hide Base, PlacesOk, FamilyOk, PidsOk, SleepLocksOk, HandlersOk, FlagsOk, WakeupsOk;
    hide Does, Apply, Mine, Touch, TouchesOk, HoldsOk, PcOk;
    FactsOf(s, c, p, e);
    BaseKept(s, c, p, e, s');
    PlacesKept(s, c, p, e, s');
    FamilyKept(s, c, p, e, s');
    PidsKept(s, c, p, e, s');
    SleepLocksKept(s, c, p, e, s');
    HandlersKept(s, c, p, e, s');
    FlagsKept(s, c, p, e, s');
    WakeupsKept(s, c, p, e, s');
  }

  /** Turning interrupts on or off, and taking one, finds no lock held on that CPU. */
  lemma StillStep(s: State, c: nat, s': State)
    requires Inv(s) && c < |s.cpus| && s.cpus[c].intr.NoIntr? && (Toggles(s, c, s') || IntrBegins(s, c, s'))
    ensures Still(s, c, s')
  {
    hide PcsOk, ThreadsOk, LocksOk, PlacesOk, FamilyOk, PidsOk, SleepLocksOk, HandlersOk, FlagsOk, WakeupsOk;
    assert IntrOk(s, c);
  }

  /** Every step of every CPU keeps the invariant. */
  lemma InvKept(s: State, c: nat, s': State)
    requires Inv(s) && Step(s, c, s')
    ensures Inv(s')
  {
    hide Inv, SchedStep, Does, Apply, Still, Toggles, IntrBegins, IntrWakes, IntrMoves, CpuMoves;
    if IntrStep(s, c, s') {
      if s.cpus[c].intr.NoIntr? {
        StillStep(s, c, s');
        StillKept(s, c, s');
      } else {
        HandlerKept(s, c, s');
      }
    } else if Toggles(s, c, s') {
      StillStep(s, c, s');
      StillKept(s, c, s');
    } else {
      match s.cpus[c].thr
      case OnSched(_) => SchedKept(s, c, s');
      case OnProc(p) =>
        var e :| Does(s, p, e) && Apply(s, c, p, e, s');
        EffectKept(s, c, p, e, s');
    }
  }

  lemma InvInitial(s: State)
    requires Initial(s)
    ensures Inv(s)
  {
    assert forall p :: 0 <= p < |s.procs| ==> Core(s.procs[p].pc) == Idle;
    assert forall p :: 0 <= p < |s.procs| ==> ProcOk(s, p);
    assert forall p :: 0 <= p < |s.procs| ==> Kin(s, p);
    assert forall c :: 0 <= c < |s.cpus| ==> s.cpus[c].intr.NoIntr? && HeldOn(s, c) == Zero;
  }

  ghost predicate Next(s: State, s': State) { exists c :: Step(s, c, s') }

  /** A run: it starts after userinit, and every state follows from the one before by a step of some CPU. */
  ghost predicate Run(states: seq<State>) {
    && |states| > 0 && Initial(states[0])
    && forall k :: 0 <= k < |states| - 1 ==> Next(states[k], states[k + 1])
  }

  /** The invariant holds in every state of every run, for any number of processes, CPUs and sleep locks. */
  lemma {:induction false} RunInv(states: seq<State>, k: nat)
    requires Run(states) && k < |states|
    ensures Inv(states[k])
  {
    hide Inv, Step, Initial;
    if k == 0 {
      InvInitial(states[0]);
    } else {
      RunInv(states, k - 1);
      assert Next(states[k - 1], states[k - 1 + 1]);
      var c :| Step(states[k - 1], c, states[k]);
      InvKept(states[k - 1], c, states[k]);
    }
  }

  // ---------------------------------------------------------------------------
  // What the invariant means
  // ---------------------------------------------------------------------------

  /** Whenever p->lock is free, p is RUNNING exactly when a CPU has it as its process, and then exactly one has. */
  lemma OneCpuPerProcess(s: State, p: nat)
    requires Inv(s) && p < |s.procs| && PLock(p) !in s.locks
    ensures s.procs[p].st == RUNNING <==> exists c :: 0 <= c < |s.cpus| && s.cpus[c].proc == p
    ensures forall c, d :: 0 <= c < |s.cpus| && 0 <= d < |s.cpus| && s.cpus[c].proc == p && s.cpus[d].proc == p ==>
            c == d
  {
    assert ProcOk(s, p);
    forall c | 0 <= c < |s.cpus| && s.cpus[c].proc == p ensures s.cpus[c].thr == OnProc(p) && s.procs[p].on == c {
      assert CpuOk(s, c) && IntrOk(s, c);
      assert !In(PLock(p), HeldOn(s, c));
    }
    if s.procs[p].st == RUNNING {
      assert CpuOk(s, s.procs[p].on);
      assert s.cpus[s.procs[p].on].proc == p;
    }
    if 0 <= s.procs[p].on < |s.cpus| {
      assert !In(PLock(p), HeldOn(s, s.procs[p].on)) && IntrOk(s, s.procs[p].on);
    }
    hide PlacesOk, FamilyOk, PidsOk, SleepLocksOk, HandlersOk, FlagsOk, WakeupsOk, PcsOk, LocksOk, IntrsOk;
  }

  /**
    None of the panics of sched can happen: its CPU holds p->lock and nothing else, interrupts are
    off, and p is no longer RUNNING.
   */
  lemma SchedNeverPanics(s: State, c: nat, p: nat, e: Effect, s': State)
    requires Inv(s) && Acts(s, c, p) && Does(s, p, e) && Apply(s, c, p, e, s') && e.sched
    ensures PLock(p) in s.locks && s.locks[PLock(p)] == c && s.cpus[c].noff == 1 && s.cpus[c].proc == p
    ensures !s.cpus[c].ie
    ensures s'.procs[p].st != RUNNING && s'.locks == s.locks && s'.cpus[c].proc == p
  {
    hide PlacesOk, FamilyOk, PidsOk, SleepLocksOk, HandlersOk, FlagsOk, WakeupsOk, PcsOk;
    hide Does, Mine, Touch, TouchesOk, PcOk, HeldAt;
    FactsOf(s, c, p, e);
    assert CpuOk(s, c) && IntrOk(s, c);
    assert In(PLock(p), HeldOn(s, c)) && Count(HeldOn(s, c)) == 1;
    Fields(s, c, p, e, s', p);
  }

  /** acquire never deadlocks on a lock of its own CPU, and only the holder releases. */
  lemma LocksNeverPanic(s: State, c: nat, p: nat, e: Effect)
    requires Inv(s) && Acts(s, c, p) && Does(s, p, e)
    ensures e.op.Take? ==> !(e.op.l in s.locks && s.locks[e.op.l] == c)
    ensures e.op.Drop? ==> e.op.l in s.locks && s.locks[e.op.l] == c
  {
    hide PlacesOk, FamilyOk, PidsOk, SleepLocksOk, HandlersOk, FlagsOk, WakeupsOk;
    hide Does, Mine, Touch, TouchesOk, PcOk, Base;
    FactsOf(s, c, p, e);
    if !e.op.NoOp? {
      HolderIs(s, c, p, e.op.l);
    }
    hide HeldAt;
  }

  /** A handler too never acquires a lock that its CPU holds: the thread it interrupted holds none. */
  lemma HandlersNeverPanic(s: State, c: nat, s': State)
    requires Inv(s) && Handling(s, c, s') && |s'.cpus| == |s.cpus|
    ensures HeldBy(s, s.cpus[c].thr).Zero?
    ensures var op := OpTo(s, c, s.cpus[c].intr, s'.cpus[c].intr);
      && LockStep(s, c, op, s')
      && (op.Take? ==> !(op.l in s.locks && s.locks[op.l] == c))
      && (op.Drop? ==> op.l in s.locks && s.locks[op.l] == c)
  {
    hide PcsOk, ThreadsOk, PlacesOk, FamilyOk, PidsOk, SleepLocksOk, HandlersOk, FlagsOk, WakeupsOk, IntrStep;
    HandlerCpu(s, c, s');
    HandlerGoes(s, c, s');
    assert IntrOk(s, c);
    var op := OpTo(s, c, s.cpus[c].intr, s'.cpus[c].intr);
    if op.Drop? {
      assert In(op.l, HeldOn(s, c));
    }
  }

  /** A CPU that has interrupts on holds no spinlock, so a handler never waits for the thread it interrupted. */
  lemma InterruptsOffUnderLocks(s: State, c: nat, l: Lock)
    requires Inv(s) && c < |s.cpus| && s.cpus[c].ie
    ensures !(l in s.locks && s.locks[l] == c)
  {
    hide PcsOk, ThreadsOk, PlacesOk, FamilyOk, PidsOk, SleepLocksOk, HandlersOk, FlagsOk, WakeupsOk, HeldAt;
    assert IntrOk(s, c) && s.cpus[c].noff == Count(HeldOn(s, c));
    assert !In(l, HeldOn(s, c));
  }

  /**
    The release that lets go of a process's last lock puts the interrupt-enable bit back to what the
    process found before it took the first one, whatever CPU it has come to run on in between.
   */
  lemma InterruptsRestored(s: State, c: nat, p: nat, e: Effect, s': State)
    requires Inv(s) && Acts(s, c, p) && Does(s, p, e) && Apply(s, c, p, e, s')
    ensures e.op.Drop? && s'.cpus[c].noff == 0 ==> s'.cpus[c].ie == s.procs[p].before
    ensures e.op.Take? && s.cpus[c].noff == 0 ==> s'.procs[p].before == s.cpus[c].ie
    ensures !(e.op.Take? && s.cpus[c].noff == 0) ==> s'.procs[p].before == s.procs[p].before
  {
    hide PlacesOk, FamilyOk, PidsOk, SleepLocksOk, HandlersOk, WakeupsOk, PcsOk;
    hide Does, Touch, TouchesOk, PcOk, HeldAt, OnOk, OffOk;
    FactsOf(s, c, p, e);
    Fields(s, c, p, e, s', p);
    assert CpuOk(s, c) && IntrOk(s, c) && FlagOk(s, p);
    assert HeldOn(s, c) == HeldAt(p, s.procs[p].pc) && s.cpus[c].noff == Count(HeldOn(s, c));
    hide LocksOk, ThreadsOk, IntrsOk, FlagsOk;
  }

  /** No other step of any CPU changes what a process has to restore, once it has been in sched. */
  lemma BeforeStays(s: State, c: nat, s': State, q: nat)
    requires Inv(s) && Step(s, c, s') && q < |s.procs| && s.cpus[c].thr != OnProc(q) && s.procs[q].saved.Was?
    ensures q < |s'.procs| && s'.procs[q].before == s.procs[q].before
  {
    hide PlacesOk, FamilyOk, PidsOk, SleepLocksOk, HandlersOk, WakeupsOk, PcsOk, LocksOk, IntrsOk, HeldAt;
    assert CpuOk(s, c) && FlagOk(s, q) && ProcOk(s, q);
    if !IntrStep(s, c, s') && !Toggles(s, c, s') && s.cpus[c].thr.OnProc? {
      var p := s.cpus[c].thr.p;
      var e :| Does(s, p, e) && Apply(s, c, p, e, s');
      OthersBefore(s, c, p, e, s', q);
    } else if s.cpus[c].intr.NoIntr? && !IntrStep(s, c, s') && !Toggles(s, c, s') {
      DispatchedBefore(s, c, s', q);
    } else if !s.cpus[c].intr.NoIntr? {
      hide IntrStep;
      HandlerProcs(s, c, s');
    }
  }

  lemma OthersBefore(s: State, c: nat, p: nat, e: Effect, s': State, q: nat)
    requires Inv(s) && Acts(s, c, p) && Does(s, p, e) && Apply(s, c, p, e, s') && q < |s.procs| && q != p
    ensures q < |s'.procs| && s'.procs[q].before == s.procs[q].before
  {
    hide Base, PlacesOk, FamilyOk, PidsOk, SleepLocksOk, HandlersOk, FlagsOk, WakeupsOk;
    hide Does, Mine, HoldsOk, TouchesOk, PcOk, HeldAt, LockStep;
    FactsOf(s, c, p, e);
    Fields(s, c, p, e, s', q);
  }

  lemma DispatchedBefore(s: State, c: nat, s': State, q: nat)
    requires Inv(s) && Scheduling(s, c, s') && q < |s.procs| && s.procs[q].saved.Was?
    ensures q < |s'.procs| && s'.procs[q].before == s.procs[q].before
  {
    hide PlacesOk, FamilyOk, PidsOk, SleepLocksOk, HandlersOk, WakeupsOk;
    assert FlagOk(s, q) && ProcOk(s, q);
    if s.cpus[c].thr.spc.SHold? {
      Dispatched(s, c);
    }
    hide Base;
  }

  /**
    No wakeup is lost.  Whatever a process sleeps on, if the lock of that channel is free then what
    the process waits for has not happened: whoever brought it about, a thread or a handler, woke
    the sleepers before it let go of the lock.
   */
  lemma NoLostWakeup(s: State, p: nat, ch: Chan)
    requires Inv(s) && p < |s.procs| && s.procs[p].st == SLEEPING && s.procs[p].chan == ch && LockFor(ch) !in s.locks
    ensures !Happened(s, p, ch)
  {
    hide Base, PlacesOk, FamilyOk, PidsOk, SleepLocksOk, HandlersOk, FlagsOk, Happened;
    assert Waiting(s.procs[p], ch);
    assert !WakerOn(s, ch);
  }

  /** Nobody sleeps on a condition that holds, while its lock is free. */
  lemma NoLostWakeupOnCondition(s: State, p: nat, m: nat, k: nat)
    requires Inv(s) && p < |s.procs| && Monitor(m) !in s.locks && ChanCond(m, k) in s.conds
    ensures !(s.procs[p].st == SLEEPING && s.procs[p].chan == ChanCond(m, k))
  {
    hide Inv;
    if s.procs[p].st == SLEEPING && s.procs[p].chan == ChanCond(m, k) {
      NoLostWakeup(s, p, ChanCond(m, k));
    }
  }

  /**
    The two waits of virtio_disk_rw, as conditions under vdisk_lock: condition 0 is that three
    descriptors are free, and condition b + 1 that b->disk is clear, which a handler brings about.
   */
  lemma NoLostWakeupOnDisk(s: State, p: nat, disk: nat, b: nat)
    requires Inv(s) && p < |s.procs| && Monitor(disk) !in s.locks
    ensures ChanCond(disk, 0) in s.conds ==> !(s.procs[p].st == SLEEPING && s.procs[p].chan == ChanCond(disk, 0))
    ensures ChanCond(disk, b + 1) in s.conds ==>
            !(s.procs[p].st == SLEEPING && s.procs[p].chan == ChanCond(disk, b + 1))
  {
    hide Inv;
    if ChanCond(disk, 0) in s.conds { NoLostWakeupOnCondition(s, p, disk, 0); }
    if ChanCond(disk, b + 1) in s.conds { NoLostWakeupOnCondition(s, p, disk, b + 1); }
  }

  /** A process asleep on a sleep lock whose inner lock is free sleeps because the lock is locked. */
  lemma NoLostWakeupOnSleepLock(s: State, p: nat, l: nat)
    requires Inv(s) && p < |s.procs| && l < |s.sleeplocks|
    requires s.procs[p].st == SLEEPING && s.procs[p].chan == ChanLock(l) && Inner(l) !in s.locks
    ensures s.sleeplocks[l].locked
  {
    hide Inv;
    NoLostWakeup(s, p, ChanLock(l));
  }

  /** A process asleep in wait while wait_lock is free has no child that has exited. */
  lemma NoLostWakeupInWait(s: State, p: nat, z: nat)
    requires Inv(s) && p < |s.procs| && z < |s.procs|
    requires s.procs[p].st == SLEEPING && s.procs[p].chan == ChanProc(p) && WaitLock !in s.locks
    ensures !(s.procs[z].parent == p && s.procs[z].st == ZOMBIE)
  {
    hide Inv;
    NoLostWakeup(s, p, ChanProc(p));
  }

  /** A zombie always has a live parent to wait for it, a dead process has no children, and init lives for ever. */
  lemma NoOrphans(s: State, j: nat)
    requires Inv(s) && j < |s.procs|
    ensures s.procs[j].st == ZOMBIE ==> 0 <= s.procs[j].parent < |s.procs| && Alive(s.procs[s.procs[j].parent])
    ensures !Alive(s.procs[j]) ==> forall k :: 0 <= k < |s.procs| ==> s.procs[k].parent != j
    ensures j == s.initproc ==> Alive(s.procs[j])
  {
    hide Base, PlacesOk, PidsOk, SleepLocksOk, HandlersOk, FlagsOk, WakeupsOk;
    assert Kin(s, j);
    forall k | 0 <= k < |s.procs| && !Alive(s.procs[j]) ensures s.procs[k].parent != j {
      assert Kin(s, k);
    }
  }

  /** Over a whole run, wait returns each pid at most once, and only pids of processes that exited. */
  lemma WaitedOnce(s: State, i: nat, j: nat)
    requires Inv(s) && i < j < |s.waited|
    ensures s.waited[i] != s.waited[j] && s.waited[i] in s.exited && s.waited[j] in s.exited
  {
    hide Base, PlacesOk, FamilyOk, SleepLocksOk, WakeupsOk;
  }

  /** wait returns the pid of a child of its caller that has exited, and the child's slot is free again. */
  lemma WaitReapsAChild(s: State, c: nat, p: nat, e: Effect, s': State)
    requires Inv(s) && Acts(s, c, p) && Does(s, p, e) && Apply(s, c, p, e, s') && s'.waited != s.waited
    ensures exists i :: 0 <= i < |s.procs| && s.procs[i].parent == p
                        && s.procs[i].st == ZOMBIE && s'.procs[i].st == UNUSED
                        && s'.waited == s.waited + [s.procs[i].pid]
  {
    hide PidsOk, SleepLocksOk, HandlersOk, FlagsOk, WakeupsOk, Does, TouchesOk, PcOk, HeldAt, HoldsOk, PcsOk,
        ThreadsOk, LocksOk;
    FactsOf(s, c, p, e);
    Running(s, c, p);
    RecordsKept(s, c, p, e, s');
    var i := e.who;
    Fields(s, c, p, e, s', i);
    CoreAt(s, p, s.procs[p].pc);
    assert s.procs[p].pc.WaitHave? && s.procs[p].pc.i == i;
    assert s.procs[i].parent == p;
    hide PlacesOk, FamilyOk, Core, Apply;
  }

  /** When wait has scanned the table, it gives up for want of children exactly if the caller has none. */
  lemma WaitFailsWithoutChildren(s: State, c: nat, p: nat, e: Effect)
    requires Inv(s) && Acts(s, c, p) && Does(s, p, e) && s.procs[p].pc.WaitScan? && s.procs[p].pc.i == |s.procs|
    ensures e.me.pc.WaitFail? <==> forall j :: 0 <= j < |s.procs| ==> s.procs[j].parent != p
  {
    hide Base, PlacesOk, FamilyOk, PidsOk, SleepLocksOk, HandlersOk, FlagsOk, WakeupsOk, PcOk, Kin, OnOk;
    Running(s, c, p);
    CoreAt(s, p, s.procs[p].pc);
  }

  /**
    kill leaves the slot with the given pid marked and awake.  The slot is a process exactly if that
    pid is not 0, the pid of every free slot.
   */
  lemma KillMarksAndWakes(s: State, c: nat, p: nat, e: Effect, s': State, i: nat)
    requires Inv(s) && Acts(s, c, p) && Kills(s, p, e) && Apply(s, c, p, e, s')
    requires s.procs[p].pc.KillHave? && i == s.procs[p].pc.i && i < |s.procs| && s.procs[i].pid == s.procs[p].pc.pid
    ensures s'.procs[i].killed && s'.procs[i].st != SLEEPING && e.me.pc.Idle?
    ensures s.procs[i].st != SLEEPING ==> s'.procs[i].st == s.procs[i].st
    ensures s.procs[i].st != UNUSED <==> s.procs[p].pc.pid != 0
  {
    hide PlacesOk, FamilyOk, SleepLocksOk, HandlersOk, FlagsOk, WakeupsOk, LocksOk, IntrsOk, PcsOk, LockStep;
    assert ProcOk(s, p) && CpuOk(s, c);
    Fields(s, c, p, e, s', i);
  }

  /** holdingsleep tells a live process exactly whether it is the one that has the sleep lock. */
  lemma HoldingSleepExact(s: State, p: nat, l: nat)
    requires Inv(s) && p < |s.procs| && l < |s.sleeplocks| && Alive(s.procs[p])
    ensures s.sleeplocks[l].locked && s.sleeplocks[l].pid == s.procs[p].pid <==> s.sleeplocks[l].owner == p
  {
    hide Base, PlacesOk, FamilyOk, WakeupsOk;
  }

  /** A sleep lock passes from nobody to the process that acquires it and back, never from one process to another. */
  lemma SleepLockExcludes(s: State, c: nat, p: nat, e: Effect, s': State, l: nat)
    requires Inv(s) && Acts(s, c, p) && Does(s, p, e) && Apply(s, c, p, e, s') && l < |s.sleeplocks|
    requires s'.sleeplocks[l].owner != s.sleeplocks[l].owner
    ensures (s.sleeplocks[l].owner == -1 && s'.sleeplocks[l].owner == p) ||
            (s.sleeplocks[l].owner == p && s'.sleeplocks[l].owner == -1)
  {
    hide Base, PlacesOk, FamilyOk, PidsOk, SleepLocksOk, HandlersOk, FlagsOk, WakeupsOk, Does, Apply, Mine, Touch,
        TouchesOk, PcOk, HeldAt, HoldsOk;
    FactsOf(s, c, p, e);
    SleepLockFrame(s, c, p, e, s', l);
  }
}
