/**
  One step of a process keeps the whole invariant.
 */
module ProcKept {
  import opened ProcMachine
  import opened ProcInvariant
  import opened ProcSteps
  import opened ProcFrame
  import opened ProcPlaces
  import opened ProcMine

  lemma {:induction false} CoreAt(s: State, p: nat, pc: Pc)
    requires p < |s.procs|
    ensures At(s, p, Core(pc)) ==> At(s, p, pc)
    ensures !Wrapped(pc) ==> Core(pc) == pc
  {
    if !Wrapped(pc) {
      assert Core(pc) == pc;
    }
  }

  /** The place p's own step takes it to. */
  lemma MyPlace(s: State, c: nat, p: nat, e: Effect, s': State)
    requires From(s, c, p, e, s') && Does(s, p, e) && At(s, p, Core(s.procs[p].pc))
    ensures At(s', p, Core(e.me.pc))
  {
    hide Base, PlacesOk, FamilyOk, Facts, Apply, At, OnOk, Kin, Core, PcOk;
    hide Begins, Yields, Sleeps, Wakes, UsesSleepLock, UsesCond, SetsCond, Exits, Dies;
    hide Scans, Reaps, Returns, Allocs, Creates, Forks, Starts, Kills;
    CoreAt(s', p, e.me.pc);
    if Yields(s, p, e) {
      YieldsAt(s, c, p, e, s');
    } else if Begins(s, p, e) {
      BeginsAt(s, c, p, e, s');
    } else if Sleeps(s, p, e) {
      SleepsAt(s, c, p, e, s');
    } else if Wakes(s, p, e) {
      WakesAt(s, c, p, e, s');
    } else if UsesSleepLock(s, p, e) {
      UsesSleepLockAt(s, c, p, e, s');
    } else if UsesCond(s, p, e) {
      UsesCondAt(s, c, p, e, s');
    } else if SetsCond(s, p, e) {
      SetsCondAt(s, c, p, e, s');
    } else if Exits(s, p, e) {
      ExitsAt(s, c, p, e, s');
    } else if Dies(s, p, e) {
      DiesAt(s, c, p, e, s');
    } else if Scans(s, p, e) {
      ScansAt(s, c, p, e, s');
    } else if Reaps(s, p, e) {
      ReapsAt(s, c, p, e, s');
    } else if Returns(s, p, e) {
      ReturnsAt(s, c, p, e, s');
    } else if Allocs(s, p, e) {
      AllocsAt(s, c, p, e, s');
    } else if Creates(s, p, e) {
      CreatesAt(s, c, p, e, s');
    } else if Forks(s, p, e) {
      ForksAt(s, c, p, e, s');
    } else if Starts(s, p, e) {
      StartsAt(s, c, p, e, s');
    } else if Kills(s, p, e) {
      KillsAt(s, c, p, e, s');
    }
  }

  lemma PlacesKept(s: State, c: nat, p: nat, e: Effect, s': State)
    requires Moved(s, c, p, e, s') && SameShape(s, s') && Does(s, p, e) && SleepLocksOk(s)
    ensures PlacesOk(s')
  {
    hide At, Does, Facts, PcOk, OnOk, Kin, Core, SleepLocksOk, ThreadsOk, LocksOk, FamilyOk;
    forall q | 0 <= q < |s'.procs| ensures At(s', q, Core(s'.procs[q].pc)) {
      if q == p {
        Running(s, c, p);
        CoreAt(s, p, s.procs[p].pc);
        MyPlace(s, c, p, e, s');
      } else {
        OtherPlace(s, c, p, e, s', q);
      }
    }
  }

  lemma OtherPlace(s: State, c: nat, p: nat, e: Effect, s': State, q: nat)
    requires Aside(s, c, p, e, s', q)
    ensures At(s', q, Core(s'.procs[q].pc))
  {
    hide At, Mine, HoldsOk, PcOk, OnOk, OffOk, Kin, SleepLocksOk, ThreadsOk, LocksOk, FamilyOk, Touch;
    Fields(s, c, p, e, s', q);
    if s'.procs[q].pc == s.procs[q].pc {
      CorePc(s, q, s.procs[q].pc);
      AtStable(s, c, p, e, s', q, Core(s.procs[q].pc));
    } else {
      IdlePlace(s', q, s'.procs[q].pc);
    }
  }

  lemma IdlePlace(s: State, q: nat, pc: Pc)
    requires q < |s.procs| && (pc.Idle? || (pc.Resume? && pc.ret.Idle?))
    ensures At(s, q, Core(pc))
  {
    assert Core(Idle) == Idle;
    assert pc.Resume? ==> Core(pc) == Core(pc.ret);
  }

  // ---------------------------------------------------------------------------
  // Families
  // ---------------------------------------------------------------------------

  /** Only exit ends a life, and only the exiting process's own. */
  lemma AliveKept(s: State, c: nat, p: nat, e: Effect, s': State, w: nat)
    requires Moved(s, c, p, e, s') && w < |s.procs| && Alive(s.procs[w]) && !(w == p && s.procs[p].pc.ExitSet?)
    ensures Alive(s'.procs[w])
  {
    Fields(s, c, p, e, s', w);
    if s.procs[p].pc.ForkPid2? {
      UnusedChild(s, c, p);
    }
    if s.procs[p].pc.ForkUsed? {
      CreatingChild(s, c, p);
    }
    hide Ready, Apply, TouchesOk, HoldsOk, PcOk;
  }

  /** What holds of p where it is when it touches its kin. */
  lemma MyKin(s: State, c: nat, p: nat)
    requires Ready(s, c, p)
    ensures var pc := s.procs[p].pc;
      && (pc.ExitSet? ==> NoChild(s, p, |s.procs|) && p != s.initproc && s.procs[p].st == RUNNING)
      && (pc.ExitRep? ==> p != s.initproc && s.procs[p].st == RUNNING)
      && (pc.ForkUsed? || pc.ForkWSet? ==> pc.i < |s.procs| && s.procs[pc.i].parent == -1)
      && (pc.ForkLSet? ==> pc.i < |s.procs| && s.procs[pc.i].parent == p)
      && (s.procs[p].st == RUNNING || ((pc.ExitRel? || pc.ExitSched?) && s.procs[p].st == ZOMBIE))
  {
    hide Base, PlacesOk, FamilyOk, Kin, HeldAt, NoChild, OwnsNoLock, ParentAwake;
    Running(s, c, p);
  }

  /** A new parent is alive, and is not the child. */
  lemma NewParent(s: State, c: nat, p: nat, e: Effect, s': State, j: nat)
    requires Moved(s, c, p, e, s') && SameShape(s, s') && j < |s.procs|
    ensures var w := s'.procs[j].parent;
      -1 <= w < |s.procs| && w != j && (w >= 0 ==> Alive(s.procs[w]) && !(w == p && s.procs[p].pc.ExitSet?))
  {
    var pc := s.procs[p].pc;
    assert Kin(s, j) && Alive(s.procs[s.initproc]) by { hide Base, PlacesOk, Facts, Apply; }
    Fields(s, c, p, e, s', j);
    MyKin(s, c, p);
    if pc.ForkWSet? { CreatingChild(s, c, p); }
    hide Ready, Apply, TouchesOk, HoldsOk, PcOk, HeldAt, At;
  }

  lemma KinKept(s: State, c: nat, p: nat, e: Effect, s': State, j: nat)
    requires Moved(s, c, p, e, s') && SameShape(s, s') && j < |s.procs|
    ensures Kin(s', j)
  {
    var pc := s.procs[p].pc;
    assert Kin(s, j) by { hide Base, PlacesOk, Facts, Apply; }
    Fields(s, c, p, e, s', j);
    MyKin(s, c, p);
    NewParent(s, c, p, e, s', j);
    if pc.ForkPid2? { UnusedChild(s, c, p); }
    if pc.ForkUsed? || pc.ForkWSet? || pc.ForkLSet? { CreatingChild(s, c, p); }
    if s'.procs[j].parent >= 0 { AliveKept(s, c, p, e, s', s'.procs[j].parent); }
    hide Ready, Apply, TouchesOk, HoldsOk, PcOk, HeldAt, At, NoChild;
  }

  lemma FamilyKept(s: State, c: nat, p: nat, e: Effect, s': State)
    requires Moved(s, c, p, e, s') && SameShape(s, s')
    ensures FamilyOk(s')
  {
    MyKin(s, c, p);
    AliveKept(s, c, p, e, s', s.initproc);
    hide Moved, Kin;
    forall j | 0 <= j < |s'.procs| ensures Kin(s', j) {
      KinKept(s, c, p, e, s', j);
    }
  }

  // ---------------------------------------------------------------------------
  // Pids
  // ---------------------------------------------------------------------------

  /** A process in use keeps its pid; a new one gets the next. */
  lemma PidKept(s: State, c: nat, p: nat, e: Effect, s': State, j: nat)
    requires Moved(s, c, p, e, s') && j < |s.procs| && s'.procs[j].st != UNUSED
    ensures
      || (s.procs[j].st != UNUSED && s'.procs[j].pid == s.procs[j].pid && !(e.who == j && e.waited != s.waited))
      || (s.procs[j].st == UNUSED && s'.procs[j].pid == s.nextpid && e.who == j && e.waited == s.waited &&
          e.nextpid == s.nextpid + 1)
  {
    Fields(s, c, p, e, s', j);
    if s.procs[p].pc.ForkPid2? { UnusedChild(s, c, p); }
    if s.procs[p].pc.ForkUsed? || s.procs[p].pc.ForkWSet? || s.procs[p].pc.ForkLSet? { CreatingChild(s, c, p); }
    if j == p { Running(s, c, p); }
    hide Ready, Apply, TouchesOk, HoldsOk, PcOk, HeldAt, At;
  }

  /** A slot that is free has no pid. */
  lemma NoPid(s: State, c: nat, p: nat, e: Effect, s': State, j: nat)
    requires Moved(s, c, p, e, s') && PidsOk(s) && j < |s.procs| && s'.procs[j].st == UNUSED
    ensures s'.procs[j].pid == 0
  {
    Fields(s, c, p, e, s', j);
    if s.procs[p].pc.ForkUsed? || s.procs[p].pc.ForkWSet? || s.procs[p].pc.ForkLSet? { CreatingChild(s, c, p); }
    if j == p { Running(s, c, p); }
    hide Ready, Apply, TouchesOk, HeldAt, At, PcOk;
  }

  /** The records of the run. */
  lemma RecordsKept(s: State, c: nat, p: nat, e: Effect, s': State)
    requires Moved(s, c, p, e, s')
    ensures s.nextpid <= s'.nextpid && s.exited <= s'.exited && s'.nextpid == e.nextpid && s'.waited == e.waited
    ensures s'.waited == s.waited ||
            (0 <= e.who < |s.procs| && s.procs[e.who].st == ZOMBIE && s'.waited == s.waited + [s.procs[e.who].pid])
  {
    hide Base, PlacesOk, FamilyOk, LockStep, TouchesOk, HoldsOk, PcOk, HeldAt, At;
  }

  lemma ZombieExited(s: State, c: nat, p: nat, e: Effect, s': State, j: nat)
    requires Moved(s, c, p, e, s') && PidsOk(s) && j < |s.procs| && s'.procs[j].st == ZOMBIE
    ensures s'.procs[j].pid in s'.exited
  {
    Fields(s, c, p, e, s', j);
    hide Ready, LockStep, TouchesOk, HoldsOk, PcOk, HeldAt, At;
  }

  lemma PidsKept(s: State, c: nat, p: nat, e: Effect, s': State)
    requires Moved(s, c, p, e, s') && SameShape(s, s') && PidsOk(s)
    ensures PidsOk(s')
  {
    hide Moved;
    RecordsKept(s, c, p, e, s');
    forall j | 0 <= j < |s'.procs| && s'.procs[j].st == ZOMBIE ensures s'.procs[j].pid in s'.exited {
      ZombieExited(s, c, p, e, s', j);
    }
    forall j | 0 <= j < |s'.procs| && s'.procs[j].st == UNUSED ensures s'.procs[j].pid == 0 {
      NoPid(s, c, p, e, s', j);
    }
    forall j | 0 <= j < |s'.procs| && s'.procs[j].st != UNUSED
      ensures 1 <= s'.procs[j].pid < s'.nextpid && s'.procs[j].pid !in s'.waited
    {
      PidKept(s, c, p, e, s', j);
      if e.waited != s.waited && j != e.who { assert s.procs[j].pid != s.procs[e.who].pid; }
    }
    forall j, k | 0 <= j < k < |s'.procs| && s'.procs[j].st != UNUSED && s'.procs[k].st != UNUSED
      ensures s'.procs[j].pid != s'.procs[k].pid
    {
      PidKept(s, c, p, e, s', j);
      PidKept(s, c, p, e, s', k);
    }
  }

  // ---------------------------------------------------------------------------
  // Sleep locks
  // ---------------------------------------------------------------------------

  lemma SleepLocksKept(s: State, c: nat, p: nat, e: Effect, s': State)
    requires Moved(s, c, p, e, s') && SameShape(s, s') && SleepLocksOk(s)
    ensures SleepLocksOk(s')
  {
    Running(s, c, p);
    Fields(s, c, p, e, s', p);
    forall l | 0 <= l < |s'.sleeplocks|
      ensures var k := s'.sleeplocks[l];
        if k.locked then 0 <= k.owner < |s'.procs| && Alive(s'.procs[k.owner]) && k.pid == s'.procs[k.owner].pid
            else k.owner == -1
    {
      if l != e.which && s.sleeplocks[l].locked {
        var w := s.sleeplocks[l].owner;
        AliveKept(s, c, p, e, s', w);
        PidKept(s, c, p, e, s', w);
      }
    }
    hide Ready, LockStep, Touch, TouchesOk, HoldsOk, PcOk, HeldAt;
  }

  // ---------------------------------------------------------------------------
  // No lost wakeup
  // ---------------------------------------------------------------------------

  /** Whoever changes what others wait for goes on to wake them. */
  lemma NextPc(s: State, p: nat, e: Effect)
    requires p < |s.procs| && Does(s, p, e)
    ensures var pc := s.procs[p].pc;
      && (pc.SlRelSet? ==> e.me.pc.WakeNext? && e.me.pc.ch == ChanLock(pc.l))
      && (pc.ExitRep? && e.who >= 0 ==> e.me.pc.WakeNext? && e.me.pc.ch == ChanProc(s.initproc))
  {
  }

  lemma OwingSteps(s: State, p: nat, e: Effect, ch: Chan)
    requires p < |s.procs| && Does(s, p, e) && Owes(s.procs[p].pc, ch)
    ensures Wakes(s, p, e) || UsesCond(s, p, e) || SetsCond(s, p, e)
  {
  }

  /** A wakeup that is owed stays owed, until it has been through the table or its condition is false again. */
  lemma StillOwes(s: State, p: nat, e: Effect, ch: Chan)
    requires p < |s.procs| && Does(s, p, e) && Owes(s.procs[p].pc, ch)
    ensures var pc := s.procs[p].pc;
      || Owes(e.me.pc, ch) || (pc.WakeNext? && pc.ch == ch && pc.i >= |s.procs|)
      || (ch.ChanCond? && ch !in e.conds)
  {
    hide Does;
    OwingSteps(s, p, e, ch);
  }

  lemma CondsAre(s: State, c: nat, p: nat, e: Effect, s': State)
    requires Moved(s, c, p, e, s')
    ensures s'.conds == e.conds
  {
    hide Ready, Facts, LockStep;
  }

  /** Lock `l` is held by the thread of p exactly when CPU c has it. */
  lemma HolderIs(s: State, c: nat, p: nat, l: Lock)
    requires Base(s) && Acts(s, c, p)
    ensures In(l, HeldAt(p, s.procs[p].pc)) <==> l in s.locks && s.locks[l] == c
  {
    assert HeldOn(s, c) == HeldAt(p, s.procs[p].pc);
    hide HeldAt;
  }

  /** The thread on another CPU is where it was. */
  lemma OtherCpu(s: State, c: nat, p: nat, e: Effect, s': State, d: nat)
    requires Moved(s, c, p, e, s') && SameShape(s, s') && d < |s.cpus| && d != c
    ensures s'.cpus[d] == s.cpus[d]
    ensures s.cpus[d].thr.OnProc? ==>
      s.cpus[d].thr.p < |s.procs| && s'.procs[s.cpus[d].thr.p].pc == s.procs[s.cpus[d].thr.p].pc
  {
    hide LocksOk, PcsOk, IntrsOk, PlacesOk, FamilyOk, LockStep, HoldsOk, PcOk, Mine, Touch, OffOk;
    assert CpuOk(s, d) && CpuOk(s, c);
    if s.cpus[d].thr.OnProc? {
      Fields(s, c, p, e, s', s.cpus[d].thr.p);
    }
  }

  /** A waker other than p stays one. */
  lemma WakerStays(s: State, c: nat, p: nat, e: Effect, s': State, ch: Chan)
    requires Moved(s, c, p, e, s') && SameShape(s, s') && WakerOn(s, ch) && !In(LockFor(ch), HeldAt(p, s.procs[p].pc))
    ensures WakerOn(s', ch)
  {
    var l := LockFor(ch);
    HolderIs(s, c, p, l);
    OtherCpu(s, c, p, e, s', s.locks[l]);
    hide Ready, PcOk, At, Touch, Mine, OnOk, OffOk, TouchesOk;
  }

  /** Nothing a process waits for happens while the acting thread is without the lock of its channel. */
  lemma QuietWakeups(s: State, c: nat, p: nat, e: Effect, s': State, q: nat, ch: Chan)
    requires Moved(s, c, p, e, s') && SameShape(s, s') && SleepLocksOk(s) && WakeupsOk(s) && q < |s.procs|
    requires !In(LockFor(ch), HeldAt(p, s.procs[p].pc)) && Waiting(s'.procs[q], ch) && Happened(s', q, ch)
    ensures WakerOn(s', ch)
  {
    hide Base, PlacesOk, FamilyOk, Facts, Apply, SleepLocksOk, HeldAt;
    WaitingFrame(s, c, p, e, s', q, ch);
    match ch {
    case NoChan =>
    case ChanLock(l) => SleepLockFrame(s, c, p, e, s', l);
    case ChanProc(_) =>
      forall j | 0 <= j < |s.procs|
        ensures s'.procs[j].parent == s.procs[j].parent && (s'.procs[j].st == ZOMBIE <==> s.procs[j].st == ZOMBIE)
      {
        FamilyFrame(s, c, p, e, s', j);
      }
    case ChanCond(m, k) => CondFrame(s, c, p, e, s', m, k);
    }
    WakerStays(s, c, p, e, s', ch);
  }

  /** If p owes wakeup(ch) after its step, it is the waker. */
  lemma IAmWaker(s: State, c: nat, p: nat, e: Effect, s': State, ch: Chan)
    requires Moved(s, c, p, e, s') && SameShape(s, s') && Base(s') && Owes(e.me.pc, ch)
    ensures WakerOn(s', ch)
  {
    Fields(s, c, p, e, s', p);
    assert !e.sched by { hide Ready, Touch, Mine, PcOk, At, Apply; }
    assert Acts(s', c, p) by { hide Base, PlacesOk, FamilyOk, Facts, LockStep; }
    assert PcOk(s', p, e.me.pc) by { hide Moved, ThreadsOk, LocksOk; }
    HolderIs(s', c, p, LockFor(ch));
    hide Moved, Base;
  }

  /** The zombie children of q grow only when one exits, or when reparent hands them to init. */
  lemma ZombiesGrow(s: State, c: nat, p: nat, e: Effect, s': State, q: nat)
    requires Moved(s, c, p, e, s') && SameShape(s, s') && q < |s.procs|
    requires NoZombie(s, q, |s.procs|) && !NoZombie(s', q, |s'.procs|)
    ensures (s.procs[p].pc.ExitSet? && s.procs[p].parent == q) ||
            (s.procs[p].pc.ExitRep? && e.who >= 0 && q == s.initproc)
  {
    var j :| 0 <= j < |s'.procs| && s'.procs[j].parent == q && s'.procs[j].st == ZOMBIE;
    Fields(s, c, p, e, s', j);
    if s.procs[p].pc.ForkUsed? || s.procs[p].pc.ForkWSet? || s.procs[p].pc.ForkLSet? { CreatingChild(s, c, p); }
    hide Ready, Apply, TouchesOk, HoldsOk, PcOk, HeldAt;
  }

  /** A thread with the lock of `ch` that owes no wakeup(ch) changes what is waited for only to owe one. */
  lemma LoudWakeups(s: State, c: nat, p: nat, e: Effect, s': State, q: nat, ch: Chan)
    requires From(s, c, p, e, s') && Does(s, p, e) && WakeupsOk(s) && q < |s.procs|
    requires In(LockFor(ch), HeldAt(p, s.procs[p].pc)) && Waiting(s'.procs[q], ch) && Happened(s', q, ch)
    ensures Owes(e.me.pc, ch)
  {
    hide Base, PlacesOk, FamilyOk, Facts, Apply, HeldAt, Does, Waiting, OnOk;
    var pc := s.procs[p].pc;
    WaitingFrame(s, c, p, e, s', q, ch);
    if Owes(pc, ch) {
      StillOwes(s, p, e, ch);
      CondsAre(s, c, p, e, s');
      if InWakeup(pc, ch) {
        SameNoneWaiting(s, c, p, e, s', ch, pc.i);
      }
    } else {
      NextPc(s, p, e);
      NotWaker(s, c, p, ch);
      Unhappened(s, c, p, e, s', q, ch);
      match ch
      case NoChan =>
      case ChanLock(l) => LockFreed(s, c, p, e, s', l);
      case ChanProc(_) => ZombiesGrow(s, c, p, e, s', q);
      case ChanCond(_, _) => CondRaised(s, c, p, e, s', ch);
    }
  }

  lemma NotWaker(s: State, c: nat, p: nat, ch: Chan)
    requires Ready(s, c, p) && In(LockFor(ch), HeldAt(p, s.procs[p].pc)) && !Owes(s.procs[p].pc, ch)
    ensures !WakerOn(s, ch)
  {
    HolderIs(s, c, p, LockFor(ch));
    hide Base, PlacesOk, FamilyOk, HeldAt;
  }

  /** Whoever makes a condition true owes a wakeup for it. */
  lemma CondRaised(s: State, c: nat, p: nat, e: Effect, s': State, ch: Chan)
    requires Moved(s, c, p, e, s') && ch !in s.conds && ch in s'.conds
    ensures Due(e.me.pc, ch)
  {
    hide Ready, LockStep, Touch, TouchesOk, HoldsOk, PcOk, HeldAt;
  }

  /** What q waits for had not happened before the step. */
  lemma Unhappened(s: State, c: nat, p: nat, e: Effect, s': State, q: nat, ch: Chan)
    requires From(s, c, p, e, s') && WakeupsOk(s) && q < |s.procs| && !WakerOn(s, ch)
    requires Waiting(s.procs[q], ch) || (q == p && s.procs[p].pc.SleepRel? && s.procs[p].pc.ch == ch)
    ensures !Happened(s, q, ch)
  {
    hide Moved, HeldAt, OnOk, Waiting, WakerOn;
  }

  lemma LockFreed(s: State, c: nat, p: nat, e: Effect, s': State, l: nat)
    requires Moved(s, c, p, e, s') && l < |s.sleeplocks| && l < |s'.sleeplocks| && s.sleeplocks[l].locked &&
            !s'.sleeplocks[l].locked
    ensures s.procs[p].pc.SlRelSet? && s.procs[p].pc.l == l
  {
    hide Base, PlacesOk, FamilyOk, LockStep, Touch, TouchesOk, HoldsOk, PcOk, HeldAt;
  }

  lemma WakeupsKept(s: State, c: nat, p: nat, e: Effect, s': State)
    requires Moved(s, c, p, e, s') && SameShape(s, s') && Does(s, p, e) && SleepLocksOk(s) && WakeupsOk(s) && Base(s')
    ensures WakeupsOk(s')
  {
    hide Base, PlacesOk, FamilyOk, Facts, Apply, HeldAt, Does, Waiting, SleepLocksOk, WakerOn, Happened;
    hide At, Kin, OnOk, PcOk, Owes;
    Running(s, c, p);
    CoreAt(s, p, s.procs[p].pc);
    forall q, ch | 0 <= q < |s'.procs| && Waiting(s'.procs[q], ch) && Happened(s', q, ch) ensures WakerOn(s', ch) {
      if In(LockFor(ch), HeldAt(p, s.procs[p].pc)) {
        LoudWakeups(s, c, p, e, s', q, ch);
        IAmWaker(s, c, p, e, s', ch);
      } else {
        QuietWakeups(s, c, p, e, s', q, ch);
      }
    }
  }

  // ---------------------------------------------------------------------------
  // Handlers, and the interrupt state that a thread restores
  // ---------------------------------------------------------------------------

  /** Nobody comes to wait on a channel while a handler is in wakeup for it. */
  lemma HandlersKept(s: State, c: nat, p: nat, e: Effect, s': State)
    requires Moved(s, c, p, e, s') && SameShape(s, s') && HandlersOk(s)
    ensures HandlersOk(s')
  {
    hide PlacesOk, FamilyOk, Facts, HeldAt, Waiting, PcsOk, ThreadsOk;
    forall d | 0 <= d < |s'.cpus| ensures HandlerOk(s', d) {
      assert HandlerOk(s, d);
      var h := s.cpus[d].intr;
      if d != c && (h.INext? || h.IHave?) {
        assert In(Monitor(h.m), HeldOn(s, d));
        HolderIs(s, c, p, Monitor(h.m));
        forall j | 0 <= j < h.i && j < |s'.procs| ensures !Waiting(s'.procs[j], ChanCond(h.m, h.k)) {
          if Waiting(s'.procs[j], ChanCond(h.m, h.k)) {
            WaitingFrame(s, c, p, e, s', j, ChanCond(h.m, h.k));
            assert false;
          }
        }
      }
    }
  }

  /** Another process keeps what it has to restore. */
  lemma OtherFlag(s: State, c: nat, p: nat, e: Effect, s': State, q: nat)
    requires Moved(s, c, p, e, s') && SameShape(s, s') && q < |s.procs| && q != p && FlagOk(s, q)
    ensures FlagOk(s', q)
  {
    assert ProcOk(s, q) && CpuOk(s, c) by { hide LocksOk, PcsOk, PlacesOk, FamilyOk, Facts, Apply; }
    Fields(s, c, p, e, s', q);
    assert forall d :: 0 <= d < |s.cpus| && d != c ==> s'.cpus[d] == s.cpus[d] by { hide Ready, Facts; }
    hide Ready, Apply, Mine, HoldsOk, PcOk, HeldAt;
  }

  lemma MyFlag(s: State, c: nat, p: nat, e: Effect, s': State)
    requires Moved(s, c, p, e, s') && SameShape(s, s') && FlagOk(s, p)
    ensures FlagOk(s', p)
  {
    Running(s, c, p);
    Fields(s, c, p, e, s', p);
    assert HeldOn(s, c) == HeldAt(p, s.procs[p].pc) && s.cpus[c].noff == Count(HeldOn(s, c));
    assert s'.cpus[c].intena == Pushed(s.cpus[c], e.op).intena by { hide Ready, Facts; }
    hide Ready, Touch, TouchesOk, PcOk, HeldAt, OnOk, OffOk, At, Kin, LockStep;
  }

  lemma FlagsKept(s: State, c: nat, p: nat, e: Effect, s': State)
    requires Moved(s, c, p, e, s') && SameShape(s, s') && FlagsOk(s)
    ensures FlagsOk(s')
  {
    hide Moved, FlagOk;
    forall q | 0 <= q < |s'.procs| ensures FlagOk(s', q) {
      assert FlagOk(s, q);
      if q == p {
        MyFlag(s, c, p, e, s');
      } else {
        OtherFlag(s, c, p, e, s', q);
      }
    }
  }
}
