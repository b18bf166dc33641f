/**
  Steps that change no more of a process than whether it runs: those of schedulers, and of threads
  that turn interrupts on or off.
 */
module ProcQuiet {
  import opened ProcMachine
  import opened ProcInvariant
  import opened ProcSteps
  import opened ProcPlaces

  /** A scheduler runs what is RUNNABLE; a handler wakes what sleeps. */
  ghost predicate SameButState(r: Proc, r': Proc) {
    && r'.pc == r.pc && r'.chan == r.chan && r'.pid == r.pid && r'.parent == r.parent && r'.forker == r.forker
    && (r'.st == r.st || (r.st == RUNNABLE && r'.st == RUNNING) || (r.st == SLEEPING && r'.st == RUNNABLE))
  }

  /** Conditions change only under their lock. */
  ghost predicate CondsHeld(s: State, c: nat, s': State)
    requires c < |s.cpus|
  {
    forall ch :: (ch in s'.conds <==> ch in s.conds) || (ch.ChanCond? && In(Monitor(ch.m), HeldIn(s.cpus[c].intr)))
  }

  ghost predicate Quiet(s: State, c: nat, s': State) {
    && c < |s.cpus| && SameShape(s, s') && s'.sleeplocks == s.sleeplocks
    && s'.nextpid == s.nextpid && s'.exited == s.exited && s'.waited == s.waited
    && (forall j :: 0 <= j < |s.procs| ==> SameButState(s.procs[j], s'.procs[j]))
    && CondsHeld(s, c, s')
  }

  lemma QuietPcs(s: State, c: nat, s': State)
    requires PcsOk(s) && Quiet(s, c, s')
    ensures PcsOk(s')
  {
    forall p | 0 <= p < |s'.procs| ensures PcOk(s', p, s'.procs[p].pc) {
      assert PcOk(s, p, s.procs[p].pc) && SameButState(s.procs[p], s'.procs[p]);
      PcStable(s, p, s.procs[p].pc, s');
    }
  }

  /** A thread on its way to sleep holds the lock of its condition, so no handler changes it. */
  lemma QuietCond(s: State, c: nat, s': State, p: nat)
    requires Base(s) && Quiet(s, c, s') && p < |s.procs|
    requires var k := Core(s.procs[p].pc); (k.SleepAcq? || k.SleepRel?) && k.ch.ChanCond?
    ensures var ch := Core(s.procs[p].pc).ch; ch in s'.conds <==> ch in s.conds
  {
    var k := Core(s.procs[p].pc);
    assert PcOk(s, p, s.procs[p].pc) && ProcOk(s, p);
    CorePc(s, p, s.procs[p].pc);
    CoreHeld(s, p, s.procs[p].pc);
    assert In(k.lk, HeldAt(p, k)) && k == s.procs[p].pc && k.lk == Monitor(k.ch.m);
    var d := s.procs[p].on;
    assert 0 <= d < |s.cpus|;
    assert IntrOk(s, d);
    if In(k.lk, HeldIn(s.cpus[c].intr)) {
      Excludes(s, c, d, k.lk);
    }
    hide HeldAt, PcOk, Core;
  }

  lemma QuietAt(s: State, c: nat, s': State, p: nat)
    requires Base(s) && Quiet(s, c, s') && p < |s.procs| && At(s, p, Core(s.procs[p].pc))
    ensures At(s', p, Core(s.procs[p].pc))
  {
    hide Base, Core;
    assert forall j :: 0 <= j < |s.procs| ==> SameButState(s.procs[j], s'.procs[j]);
    var k := Core(s.procs[p].pc);
    if (k.SleepAcq? || k.SleepRel?) && k.ch.ChanCond? {
      QuietCond(s, c, s', p);
    }
  }

  lemma QuietPlaces(s: State, c: nat, s': State)
    requires Base(s) && PlacesOk(s) && Quiet(s, c, s')
    ensures PlacesOk(s')
  {
    hide Base, At, Core;
    forall p | 0 <= p < |s'.procs| ensures At(s', p, Core(s'.procs[p].pc)) {
      assert SameButState(s.procs[p], s'.procs[p]);
      QuietAt(s, c, s', p);
    }
  }

  lemma QuietData(s: State, c: nat, s': State)
    requires FamilyOk(s) && PidsOk(s) && SleepLocksOk(s) && Quiet(s, c, s')
    ensures FamilyOk(s') && PidsOk(s') && SleepLocksOk(s')
  {
    assert forall j :: 0 <= j < |s.procs| ==> SameButState(s.procs[j], s'.procs[j]);
    forall j | 0 <= j < |s'.procs| ensures Kin(s', j) {
      assert Kin(s, j);
    }
  }

  /** Nobody comes to wait. */
  lemma QuietWaiting(s: State, c: nat, s': State, p: nat, ch: Chan)
    requires Quiet(s, c, s') && p < |s.procs| && Waiting(s'.procs[p], ch)
    ensures Waiting(s.procs[p], ch)
  {
    assert SameButState(s.procs[p], s'.procs[p]);
  }

  lemma QuietNoneWaiting(s: State, c: nat, s': State, ch: Chan, k: nat)
    requires Quiet(s, c, s') && NoneWaiting(s, ch, k)
    ensures NoneWaiting(s', ch, k)
  {
    forall q | 0 <= q < k && q < |s'.procs| ensures !Waiting(s'.procs[q], ch) {
      if Waiting(s'.procs[q], ch) {
        QuietWaiting(s, c, s', q, ch);
        assert false;
      }
    }
  }

  /** What a process waits for, conditions aside, does not come about. */
  lemma QuietHappened(s: State, c: nat, s': State, p: nat, ch: Chan)
    requires Quiet(s, c, s') && p < |s.procs| && Happened(s', p, ch) && (ch in s'.conds ==> ch in s.conds)
    ensures Happened(s, p, ch)
  {
    assert forall j :: 0 <= j < |s.procs| ==> SameButState(s.procs[j], s'.procs[j]);
  }

  /** The thread on another CPU is where it was. */
  lemma QuietOwes(s: State, c: nat, s': State, d: nat, ch: Chan)
    requires Quiet(s, c, s') && d < |s.cpus| && s'.cpus[d].thr == s.cpus[d].thr && s'.cpus[d].intr == s.cpus[d].intr
    ensures OwesOn(s', d, ch) == OwesOn(s, d, ch)
  {
    assert forall j :: 0 <= j < |s.procs| ==> SameButState(s.procs[j], s'.procs[j]);
  }

  lemma QuietHeld(s: State, c: nat, s': State, thr: Thread)
    requires Quiet(s, c, s')
    ensures HeldBy(s', thr) == HeldBy(s, thr)
  {
    hide HeldAt;
    assert forall j :: 0 <= j < |s.procs| ==> SameButState(s.procs[j], s'.procs[j]);
  }

  // ---------------------------------------------------------------------------
  // Steps of the scheduler
  // ---------------------------------------------------------------------------

  /** A step of the scheduler of CPU c. */
  ghost predicate Scheduling(s: State, c: nat, s': State) {
    c < |s.cpus| && s.cpus[c].thr.OnSched? && s.cpus[c].intr.NoIntr? && SchedStep(s, c, s')
  }

  lemma SchedQuiet(s: State, c: nat, s': State)
    requires Scheduling(s, c, s')
    ensures Quiet(s, c, s')
  {
  }

  function SchedOp(s: State, spc: SchedPc): (op: LockOp) {
    match spc
    case SScan(i) => if i >= |s.procs| then NoOp else Take(PLock(i))
    case SHold(i) => if i < |s.procs| && s.procs[i].st == RUNNABLE then NoOp else Drop(PLock(i))
    case SBack(i) => Drop(PLock(i))
  }

  lemma SchedLocks(s: State, c: nat, s': State)
    requires Base(s) && Scheduling(s, c, s') && Quiet(s, c, s')
    ensures LocksOk(s')
  {
    var op := SchedOp(s, s.cpus[c].thr.spc);
    forall d | 0 <= d < |s'.cpus| && d != c ensures HeldOn(s', d) == HeldOn(s, d) {
      QuietHeld(s, c, s', s.cpus[d].thr);
    }
    SchedHeld(s, c, op, s');
    hide Base, HeldAt, Quiet;
    LocksMoved(s, c, op, s');
  }

  /** The process that a scheduler is about to run waits for its CPU inside sched, with its lock. */
  lemma Dispatched(s: State, c: nat)
    requires Base(s) && c < |s.cpus| && s.cpus[c].thr.OnSched? && s.cpus[c].intr.NoIntr? && s.cpus[c].thr.spc.SHold?
    ensures var i := s.cpus[c].thr.spc.i;
      i < |s.procs| && (s.procs[i].st == RUNNABLE ==>
        s.procs[i].on == -1 && HeldAt(i, s.procs[i].pc) == One(PLock(i)) && !s.procs[i].pc.Dead?
        && !s.procs[i].pc.ExitRel? && !s.procs[i].pc.ExitSched?)
  {
    hide PcsOk, IntrsOk;
    assert CpuOk(s, c);
    var i := s.cpus[c].thr.spc.i;
    assert ProcOk(s, i);
    if s.procs[i].st == RUNNABLE {
      OffCpu(s, c, i);
    }
    hide ThreadsOk, LocksOk;
  }

  lemma SchedHeld(s: State, c: nat, op: LockOp, s': State)
    requires Base(s) && Scheduling(s, c, s') && |s'.cpus| == |s.cpus| && op == SchedOp(s, s.cpus[c].thr.spc)
    ensures Delta(HeldOn(s, c), op, HeldOn(s', c)) && LockStep(s, c, op, s')
  {
    assert CpuOk(s, c);
    if s.cpus[c].thr.spc.SHold? {
      Dispatched(s, c);
    }
    hide Base, HeldAt;
  }

  lemma SchedThreads(s: State, c: nat, s': State)
    requires Base(s) && Scheduling(s, c, s')
    ensures ThreadsOk(s')
  {
    assert CpuOk(s, c);
    if s.cpus[c].thr.spc.SHold? {
      Dispatched(s, c);
    }
    forall d | 0 <= d < |s'.cpus| ensures CpuOk(s', d) {
      assert CpuOk(s, d);
      if d != c { SchedApart(s, c, d); }
    }
    forall q | 0 <= q < |s'.procs| ensures ProcOk(s', q) {
      assert ProcOk(s, q);
    }
    hide PcsOk, LocksOk, IntrsOk, HeldAt;
  }

  /** No two schedulers hold the lock of the same process. */
  lemma SchedApart(s: State, c: nat, d: nat)
    requires LocksOk(s) && IntrsOk(s) && c < |s.cpus| && d < |s.cpus| && c != d && s.cpus[c].intr.NoIntr?
    ensures s.cpus[c].thr.OnSched? && s.cpus[c].thr.spc.SHold? && s.cpus[d].thr.OnSched? && s.cpus[d].thr.spc.SBack? ==>
      s.cpus[c].thr.spc.i != s.cpus[d].thr.spc.i
  {
    if s.cpus[c].thr.OnSched? && s.cpus[c].thr.spc.SHold? && s.cpus[d].thr.OnSched? && s.cpus[d].thr.spc.SBack? {
      assert IntrOk(s, d);
      if s.cpus[c].thr.spc.i == s.cpus[d].thr.spc.i {
        Excludes(s, c, d, PLock(s.cpus[c].thr.spc.i));
      }
    }
  }

  lemma SchedIntrs(s: State, c: nat, s': State)
    requires Base(s) && Scheduling(s, c, s') && Quiet(s, c, s') && LocksOk(s')
    ensures IntrsOk(s')
  {
    forall d | 0 <= d < |s'.cpus| ensures IntrOk(s', d) {
      assert IntrOk(s, d);
      QuietHeld(s, c, s', s.cpus[d].thr);
    }
    assert s.cpus[c].noff == Count(HeldOn(s, c));
    hide PcsOk, ThreadsOk, HeldAt, LocksOk;
  }

  lemma SchedFlags(s: State, c: nat, s': State)
    requires Base(s) && FlagsOk(s) && Scheduling(s, c, s')
    ensures FlagsOk(s')
  {
    assert CpuOk(s, c);
    if s.cpus[c].thr.spc.SHold? {
      Dispatched(s, c);
    }
    forall q | 0 <= q < |s'.procs| ensures FlagOk(s', q) {
      assert FlagOk(s, q) && ProcOk(s, q);
    }
    hide PcsOk, LocksOk, IntrsOk, HeldAt;
  }

  lemma SchedHandlers(s: State, c: nat, s': State)
    requires HandlersOk(s) && Scheduling(s, c, s') && Quiet(s, c, s')
    ensures HandlersOk(s')
  {
    forall d | 0 <= d < |s'.cpus| ensures HandlerOk(s', d) {
      assert HandlerOk(s, d);
      var h := s.cpus[d].intr;
      if h.INext? || h.IHave? {
        QuietNoneWaiting(s, c, s', ChanCond(h.m, h.k), h.i);
      }
    }
  }

  lemma SchedWakeups(s: State, c: nat, s': State)
    requires WakeupsOk(s) && Scheduling(s, c, s') && Quiet(s, c, s')
    ensures WakeupsOk(s')
  {
    forall p, ch | 0 <= p < |s'.procs| && Waiting(s'.procs[p], ch) && Happened(s', p, ch) ensures WakerOn(s', ch) {
      QuietWaiting(s, c, s', p, ch);
      QuietHappened(s, c, s', p, ch);
      assert WakerOn(s, ch);
      QuietOwes(s, c, s', s.locks[LockFor(ch)], ch);
    }
  }

  lemma SchedKept(s: State, c: nat, s': State)
    requires Inv(s) && Scheduling(s, c, s')
    ensures Inv(s')
  {
    hide PcsOk, ThreadsOk, LocksOk, IntrsOk, PlacesOk, FamilyOk, PidsOk, SleepLocksOk, HandlersOk, FlagsOk, WakeupsOk;
    hide Scheduling, Quiet;
    SchedQuiet(s, c, s');
    QuietPcs(s, c, s');
    SchedLocks(s, c, s');
    SchedThreads(s, c, s');
    SchedIntrs(s, c, s');
    QuietPlaces(s, c, s');
    QuietData(s, c, s');
    SchedHandlers(s, c, s');
    SchedFlags(s, c, s');
    SchedWakeups(s, c, s');
  }

  // ---------------------------------------------------------------------------
  // Interrupts on and off
  // ---------------------------------------------------------------------------

  /** A step that changes one CPU, and of it neither its thread nor what it holds. */
  ghost predicate Still(s: State, c: nat, s': State) {
    && c < |s.cpus| && |s'.cpus| == |s.cpus| && s' == s.(cpus := s.cpus[c := s'.cpus[c]])
    && var k, k' := s.cpus[c], s'.cpus[c];
       && k'.thr == k.thr && k'.proc == k.proc && k'.noff == k.noff == 0 && k'.intena == k.intena
       && k.intr.NoIntr? && (k'.intr.NoIntr? || (k'.intr.IAcq? && !k'.ie))
  }

  lemma StillBase(s: State, c: nat, s': State)
    requires Base(s) && Still(s, c, s')
    ensures Base(s') && Quiet(s, c, s')
  {
    assert Quiet(s, c, s');
    QuietPcs(s, c, s');
    assert s.cpus[c].noff == Count(HeldOn(s, c));
    forall d | 0 <= d < |s'.cpus| ensures HeldOn(s', d) == HeldOn(s, d) && CpuOk(s', d) && IntrOk(s', d) {
      assert IntrOk(s, d) && CpuOk(s, d);
      QuietHeld(s, c, s', s.cpus[d].thr);
    }
    forall q | 0 <= q < |s'.procs| ensures ProcOk(s', q) {
      assert ProcOk(s, q);
    }
    hide PcsOk, HeldAt;
  }

  lemma StillWakeups(s: State, c: nat, s': State)
    requires LocksOk(s) && WakeupsOk(s) && Still(s, c, s') && Quiet(s, c, s')
    ensures WakeupsOk(s')
  {
    forall p, ch | 0 <= p < |s'.procs| && Waiting(s'.procs[p], ch) && Happened(s', p, ch) ensures WakerOn(s', ch) {
      QuietWaiting(s, c, s', p, ch);
      QuietHappened(s, c, s', p, ch);
      assert WakerOn(s, ch);
      var d := s.locks[LockFor(ch)];
      assert In(LockFor(ch), HeldOn(s, d)) && s.cpus[d].noff == Count(HeldOn(s, d));
      assert d != c;
      QuietOwes(s, c, s', d, ch);
    }
  }

  /** Turning interrupts on or off, and taking one. */
  lemma StillKept(s: State, c: nat, s': State)
    requires Inv(s) && Still(s, c, s')
    ensures Inv(s')
  {
    StillBase(s, c, s');
    hide PcsOk, ThreadsOk, IntrsOk, PlacesOk, FamilyOk, PidsOk, SleepLocksOk, WakeupsOk, Quiet;
    QuietPlaces(s, c, s');
    QuietData(s, c, s');
    StillWakeups(s, c, s');
    forall d | 0 <= d < |s'.cpus| ensures HandlerOk(s', d) {
      assert HandlerOk(s, d);
    }
    forall q | 0 <= q < |s'.procs| ensures FlagOk(s', q) {
      assert FlagOk(s, q);
    }
  }
}
