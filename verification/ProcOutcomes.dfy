/**
  What the operations of the process machine come to: why a process changes its state, its parent or
  its mark, when wait gives up and when it sleeps, and how kill and fork end.
 */
module ProcOutcomes {
  import opened ProcMachine
  import opened ProcInvariant
  import opened ProcSteps
  import opened ProcFrame
  import opened ProcQuiet
  import opened ProcHandlers
  import opened ProcRuns

  // ---------------------------------------------------------------------------
  // wait
  // ---------------------------------------------------------------------------

  ghost predicate HasChild(s: State, p: nat) { exists j :: 0 <= j < |s.procs| && s.procs[j].parent == p }

  ghost predicate ExitedChild(s: State, p: nat, z: nat) {
    z < |s.procs| && s.procs[z].parent == p && s.procs[z].st == ZOMBIE
  }

  /** Where wait has made up its mind: it fails, or it sleeps. */
  predicate WaitEnd(pc: Pc) { pc.WaitFail? || (pc.SleepAcq? && pc.ch.ChanProc?) }

  lemma RestingElsewhere(s: State, p: nat, e: Effect)
    requires p < |s.procs| && PcOk(s, p, s.procs[p].pc) && (Begins(s, p, e) || Yields(s, p, e) || Sleeps(s, p, e))
    ensures !WaitEnd(e.me.pc)
  {
  }

  lemma WakingElsewhere(s: State, p: nat, e: Effect)
    requires p < |s.procs| && PcOk(s, p, s.procs[p].pc)
    requires Wakes(s, p, e) || UsesSleepLock(s, p, e) || UsesCond(s, p, e) || SetsCond(s, p, e)
    ensures !WaitEnd(e.me.pc)
  {
  }

  lemma ExitingElsewhere(s: State, p: nat, e: Effect)
    requires p < |s.procs| && (Exits(s, p, e) || Dies(s, p, e) || Kills(s, p, e))
    ensures !WaitEnd(e.me.pc)
  {
  }

  lemma ForkingElsewhere(s: State, p: nat, e: Effect)
    requires p < |s.procs| && (Allocs(s, p, e) || Creates(s, p, e) || Forks(s, p, e) || Starts(s, p, e))
    ensures !WaitEnd(e.me.pc)
  {
  }

  /** Only wait gets there. */
  lemma OnlyInWait(s: State, c: nat, p: nat, e: Effect)
    requires Ready(s, c, p) && Does(s, p, e) && WaitEnd(e.me.pc)
    ensures Scans(s, p, e) || Reaps(s, p, e) || Returns(s, p, e)
  {
    hide Base, PlacesOk, FamilyOk, PcOk, At, Kin, OnOk;
    hide Begins, Yields, Sleeps, Wakes, UsesSleepLock, UsesCond, SetsCond, Exits, Dies;
    hide Scans, Reaps, Returns, Allocs, Creates, Forks, Starts, Kills;
    Running(s, c, p);
    if Begins(s, p, e) || Yields(s, p, e) || Sleeps(s, p, e) {
      RestingElsewhere(s, p, e);
    } else if Wakes(s, p, e) || UsesSleepLock(s, p, e) || UsesCond(s, p, e) || SetsCond(s, p, e) {
      WakingElsewhere(s, p, e);
    } else if Exits(s, p, e) || Dies(s, p, e) || Kills(s, p, e) {
      ExitingElsewhere(s, p, e);
    } else if Allocs(s, p, e) || Creates(s, p, e) || Forks(s, p, e) || Starts(s, p, e) {
      ForkingElsewhere(s, p, e);
    }
  }

  /**
    wait gives up only if the caller has no child, or is killed, or has an exited child whose status
    cannot be copied out.
   */
  lemma WaitGivesUp(s: State, c: nat, p: nat, e: Effect)
    requires Inv(s) && Acts(s, c, p) && Does(s, p, e) && e.me.pc.WaitFail?
    ensures !HasChild(s, p) || s.procs[p].killed || exists z :: ExitedChild(s, p, z) && e.op == Drop(PLock(z))
  {
    hide Base, PlacesOk, FamilyOk, PidsOk, SleepLocksOk, HandlersOk, FlagsOk, WakeupsOk, Kin, OnOk, PcOk, Does;
    OnlyInWait(s, c, p, e);
    Running(s, c, p);
    if Reaps(s, p, e) {
      assert ExitedChild(s, p, s.procs[p].pc.i);
    }
  }

  /** wait sleeps only if the caller is not killed, has a child, and none that has exited. */
  lemma WaitSleeps(s: State, c: nat, p: nat, e: Effect)
    requires Inv(s) && Acts(s, c, p) && Does(s, p, e) && e.me.pc.SleepAcq? && e.me.pc.ch.ChanProc?
    ensures e.me.pc.ch == ChanProc(p) && e.me.pc.lk == WaitLock
    ensures !s.procs[p].killed && HasChild(s, p) && forall z :: !ExitedChild(s, p, z)
  {
    hide Base, PlacesOk, FamilyOk, PidsOk, SleepLocksOk, HandlersOk, FlagsOk, WakeupsOk, Kin, OnOk, PcOk, Does;
    OnlyInWait(s, c, p, e);
    Running(s, c, p);
  }

  // ---------------------------------------------------------------------------
  // Why a record changes
  // ---------------------------------------------------------------------------

  /** CPU c runs the thread of process p. */
  ghost predicate Doing(s: State, c: nat, p: int) {
    c < |s.cpus| && 0 <= p < |s.procs| && s.cpus[c].intr.NoIntr? && s.cpus[c].thr == OnProc(p)
  }

  /** CPU c has process q in hand in a wakeup of the channel that q sleeps on. */
  ghost predicate WakesUp(s: State, c: nat, q: nat)
    requires c < |s.cpus| && q < |s.procs|
  {
    var h, thr, ch := s.cpus[c].intr, s.cpus[c].thr, s.procs[q].chan;
    || (h.IHave? && h.i == q && ch == ChanCond(h.m, h.k))
    || (h.NoIntr? && thr.OnProc? && thr.p < |s.procs| && s.procs[thr.p].pc.WakeHave?
        && s.procs[thr.p].pc.i == q && s.procs[thr.p].pc.ch == ch)
  }

  /** CPU c has process q in hand in a kill of q's pid. */
  ghost predicate KillsIt(s: State, c: nat, q: nat)
    requires c < |s.cpus| && q < |s.procs|
  {
    var h, thr := s.cpus[c].intr, s.cpus[c].thr;
    && h.NoIntr? && thr.OnProc? && thr.p < |s.procs|
    && s.procs[thr.p].pc == KillHave(s.procs[q].pid, q)
  }

  /** The reasons for which a process changes its state in a step of CPU c. */
  ghost predicate Transition(s: State, c: nat, s': State, q: nat)
    requires c < |s.cpus| && q < |s.procs| && q < |s'.procs| && c < |s'.cpus|
  {
    var r, r' := s.procs[q], s'.procs[q];
    match (r.st, r'.st)
    // the scheduler
    case (RUNNABLE, RUNNING) =>
      s.cpus[c].thr == OnSched(SHold(q)) && s'.cpus[c].thr == OnProc(q) && s'.cpus[c].proc == q
    // yield, sleep and exit, of q itself
    case (RUNNING, RUNNABLE) => Doing(s, c, q) && r.pc.YieldSet?
    case (RUNNING, SLEEPING) => Doing(s, c, q) && r.pc.SleepSet? && r'.chan == r.pc.ch
    case (RUNNING, ZOMBIE) => Doing(s, c, q) && r.pc.ExitSet? && q != s.initproc && !HasChild(s, q)
    // wakeup of q's channel, or kill of q's pid
    case (SLEEPING, RUNNABLE) => WakesUp(s, c, q) || KillsIt(s, c, q)
    // fork: a new pid; a child with its parent; no memory
    case (UNUSED, USED) => Doing(s, c, r'.forker) && r'.pid == s.nextpid
    case (USED, RUNNABLE) => Doing(s, c, r.forker) && r.parent == r.forker
    case (USED, UNUSED) => Doing(s, c, r.forker) && r.parent == -1
    // wait, of q's parent
    case (ZOMBIE, UNUSED) => Doing(s, c, r.parent) && s'.waited == s.waited + [r.pid]
    case _ => false
  }

  lemma OwnTransition(s: State, c: nat, p: nat, e: Effect, s': State)
    requires Ready(s, c, p) && Facts(s, p, e) && Apply(s, c, p, e, s')
    ensures |s'.procs| == |s.procs| && |s'.cpus| == |s.cpus|
    ensures s'.procs[p].st == s.procs[p].st || Transition(s, c, s', p)
  {
    hide Base, PlacesOk, FamilyOk, Local, Touch, LockStep, CondsMoved, Kin;
    Running(s, c, p);
    Fields(s, c, p, e, s', p);
  }

  lemma OtherTransition(s: State, c: nat, p: nat, e: Effect, s': State, q: nat)
    requires Ready(s, c, p) && Facts(s, p, e) && Apply(s, c, p, e, s') && q < |s.procs| && q != p
    ensures |s'.procs| == |s.procs| && |s'.cpus| == |s.cpus|
    ensures s'.procs[q].st == s.procs[q].st || Transition(s, c, s', q)
  {
    hide Base, PlacesOk, FamilyOk, Local, Mine, LockStep, Kin, PcOk, OnOk;
    Running(s, c, p);
    Fields(s, c, p, e, s', q);
  }

  /** Every change of a process's state has one of these reasons. */
  lemma StateChanges(s: State, c: nat, s': State, q: nat)
    requires Inv(s) && Step(s, c, s') && q < |s.procs|
    ensures |s'.procs| == |s.procs| && |s'.cpus| == |s.cpus|
    ensures s'.procs[q].st == s.procs[q].st || Transition(s, c, s', q)
  {
    hide PidsOk, SleepLocksOk, HandlersOk, FlagsOk, WakeupsOk, Base, PlacesOk, FamilyOk, Does, Apply, Facts, Transition;
    if s.cpus[c].intr.NoIntr? && s.cpus[c].thr.OnProc? && !IntrStep(s, c, s') && !Toggles(s, c, s') {
      var p := s.cpus[c].thr.p;
      var e :| Does(s, p, e) && Apply(s, c, p, e, s');
      FactsOf(s, c, p, e);
      if q == p {
        OwnTransition(s, c, p, e, s');
      } else {
        OtherTransition(s, c, p, e, s', q);
      }
    } else {
      QuietTransition(s, c, s', q);
    }
  }

  /** The steps that no process takes: of the scheduler, of interrupts, and of the interrupt flag. */
  lemma QuietTransition(s: State, c: nat, s': State, q: nat)
    requires Step(s, c, s') && q < |s.procs|
    requires !s.cpus[c].intr.NoIntr? || s.cpus[c].thr.OnSched? || IntrStep(s, c, s') || Toggles(s, c, s')
    ensures |s'.procs| == |s.procs| && |s'.cpus| == |s.cpus|
    ensures SameButState(s.procs[q], s'.procs[q]) && s'.procs[q].killed == s.procs[q].killed
    ensures s'.procs[q].st == s.procs[q].st || Transition(s, c, s', q)
  {
    hide LockStep, ProcStep, Pushed;
  }

  lemma QuietLength(s: State, c: nat, s': State)
    requires Step(s, c, s')
    requires !s.cpus[c].intr.NoIntr? || s.cpus[c].thr.OnSched? || IntrStep(s, c, s') || Toggles(s, c, s')
    ensures |s'.procs| == |s.procs|
  {
    hide LockStep, ProcStep, Pushed;
  }

  /** A step that process p takes, as opposed to one of its CPU's scheduler or interrupts. */
  ghost predicate Own(s: State, c: nat, p: nat, e: Effect, s': State) {
    Acts(s, c, p) && Does(s, p, e) && Apply(s, c, p, e, s')
  }

  /** Every step is one of a process, or leaves all records but for the states. */
  lemma WhoseStep(s: State, c: nat, s': State)
    requires Inv(s) && Step(s, c, s')
    ensures |s'.procs| == |s.procs|
    ensures || (exists p, e :: Own(s, c, p, e, s'))
            || (forall q :: 0 <= q < |s.procs| ==>
                  SameButState(s.procs[q], s'.procs[q]) && s'.procs[q].killed == s.procs[q].killed)
  {
    hide PidsOk, SleepLocksOk, HandlersOk, FlagsOk, WakeupsOk, Base, PlacesOk, FamilyOk, Does, SameButState;
    hide IntrStep, Toggles, SchedStep, Transition;
    if s.cpus[c].intr.NoIntr? && s.cpus[c].thr.OnProc? && !IntrStep(s, c, s') && !Toggles(s, c, s') {
      var p := s.cpus[c].thr.p;
      var e :| Does(s, p, e) && Apply(s, c, p, e, s');
      assert Own(s, c, p, e, s');
    } else {
      hide Apply;
      QuietLength(s, c, s');
      forall q | 0 <= q < |s.procs|
        ensures SameButState(s.procs[q], s'.procs[q]) && s'.procs[q].killed == s.procs[q].killed
      {
        QuietTransition(s, c, s', q);
      }
    }
  }

  /**
    A process gets a parent when it is forked, and loses it to init when that parent exits; wait and a
    fork without memory clear it.
   */
  lemma ParentChanges(s: State, c: nat, s': State, q: nat)
    requires Inv(s) && Step(s, c, s') && q < |s.procs|
    ensures |s'.procs| == |s.procs|
    ensures var r, r' := s.procs[q], s'.procs[q];
      || r'.parent == r.parent
      || (r.parent == -1 && r'.parent == r.forker && Doing(s, c, r.forker))
      || (r'.parent == s.initproc && Doing(s, c, r.parent) && s.procs[r.parent].pc.ExitRep?)
      || (r'.parent == -1 && r'.st == UNUSED && r.st != UNUSED)
  {
    hide PidsOk, SleepLocksOk, HandlersOk, FlagsOk, WakeupsOk, Base, PlacesOk, FamilyOk, Does, Apply, Own, Step;
    WhoseStep(s, c, s');
    if p, e :| Own(s, c, p, e, s') {
      EffectParent(s, c, p, e, s', q);
    }
  }

  lemma EffectParent(s: State, c: nat, p: nat, e: Effect, s': State, q: nat)
    requires Inv(s) && Own(s, c, p, e, s') && q < |s.procs|
    ensures |s'.procs| == |s.procs|
    ensures var r, r' := s.procs[q], s'.procs[q];
      || r'.parent == r.parent
      || (r.parent == -1 && r'.parent == r.forker && Doing(s, c, r.forker))
      || (r'.parent == s.initproc && Doing(s, c, r.parent) && s.procs[r.parent].pc.ExitRep?)
      || (r'.parent == -1 && r'.st == UNUSED && r.st != UNUSED)
    ensures s'.procs[q].killed != s.procs[q].killed ==> if s'.procs[q].killed then KillsIt(s, c, q) else
              s'.procs[q].st == UNUSED && s.procs[q].st != UNUSED
  {
    hide PidsOk, SleepLocksOk, HandlersOk, FlagsOk, WakeupsOk, Base, PlacesOk, FamilyOk, Does, Local, LockStep, Kin,
        PcOk, OnOk, CondsMoved;
    FactsOf(s, c, p, e);
    Running(s, c, p);
    Fields(s, c, p, e, s', q);
  }

  /** A process is marked only by a kill of its pid, and the mark goes when its slot is freed. */
  lemma MarkChanges(s: State, c: nat, s': State, q: nat)
    requires Inv(s) && Step(s, c, s') && q < |s.procs|
    ensures |s'.procs| == |s.procs|
    ensures s'.procs[q].killed != s.procs[q].killed ==> if s'.procs[q].killed then KillsIt(s, c, q) else
              s'.procs[q].st == UNUSED && s.procs[q].st != UNUSED
  {
    hide PidsOk, SleepLocksOk, HandlersOk, FlagsOk, WakeupsOk, Base, PlacesOk, FamilyOk, Does, Apply, Own, Step;
    WhoseStep(s, c, s');
    if p, e :| Own(s, c, p, e, s') {
      EffectParent(s, c, p, e, s', q);
    }
  }

  // ---------------------------------------------------------------------------
  // kill and fork look at every slot
  // ---------------------------------------------------------------------------

  /** Others leave a live process where it is. */
  lemma PcStays(s: State, c: nat, s': State, q: nat)
    requires Inv(s) && Step(s, c, s') && q < |s.procs| && Alive(s.procs[q])
    ensures |s'.procs| == |s.procs|
    ensures s'.procs[q].pc == s.procs[q].pc || exists e :: Own(s, c, q, e, s')
  {
    hide PidsOk, SleepLocksOk, HandlersOk, FlagsOk, WakeupsOk, Base, PlacesOk, FamilyOk, Does, Apply, Own, Step;
    WhoseStep(s, c, s');
    if p, e :| Own(s, c, p, e, s') {
      if p != q {
        OthersPc(s, c, p, e, s', q);
      }
    }
  }

  lemma OthersPc(s: State, c: nat, p: nat, e: Effect, s': State, q: nat)
    requires Inv(s) && Own(s, c, p, e, s') && q < |s.procs| && q != p && Alive(s.procs[q])
    ensures |s'.procs| == |s.procs| && s'.procs[q].pc == s.procs[q].pc
  {
    hide PidsOk, SleepLocksOk, HandlersOk, FlagsOk, WakeupsOk, Base, PlacesOk, FamilyOk, Does, Local, LockStep, Kin,
        PcOk, OnOk, Mine;
    FactsOf(s, c, p, e);
    Running(s, c, p);
    Fields(s, c, p, e, s', q);
  }

  /** Process p is in kill(pid), with slot i to look at. */
  ghost predicate KillAt(s: State, p: nat, pid: nat, i: nat) {
    p < |s.procs| && (Core(s.procs[p].pc) == KillScan(pid, i) || Core(s.procs[p].pc) == KillHave(pid, i))
  }

  ghost predicate InKill(s: State, p: nat, pid: nat) { exists i: nat :: KillAt(s, p, pid, i) }

  /** From state a until before state b, slot j has had another pid at some point. */
  ghost predicate OncePid(states: seq<State>, a: nat, b: nat, j: nat, pid: nat) {
    exists k :: a <= k < b && k < |states| && j < |states[k].procs| && states[k].procs[j].pid != pid
  }

  /** Process p is in allocproc, with slot i to look at. */
  ghost predicate AllocAt(s: State, p: nat, i: nat) {
    p < |s.procs| && (Core(s.procs[p].pc) == ForkScan(i) || Core(s.procs[p].pc) == ForkHave(i))
  }

  ghost predicate InAlloc(s: State, p: nat) { exists i: nat :: AllocAt(s, p, i) }

  /** From state a until before state b, slot j has been in use at some point. */
  ghost predicate OnceUsed(states: seq<State>, a: nat, b: nat, j: nat) {
    exists k :: a <= k < b && k < |states| && j < |states[k].procs| && states[k].procs[j].st != UNUSED
  }

  /** A thread under interrupts is where it was. */
  lemma {:induction false} CoreKept(s: State, p: nat, e: Effect)
    requires p < |s.procs| && Does(s, p, e) && Core(s.procs[p].pc) != s.procs[p].pc
    ensures Core(e.me.pc) == Core(s.procs[p].pc) && e.who == -1
  {
  }

  lemma KillStep(s: State, c: nat, p: nat, e: Effect, s': State, pid: nat, i: nat)
    requires Inv(s) && Own(s, c, p, e, s') && KillAt(s, p, pid, i)
    ensures |s'.procs| == |s.procs|
    ensures || KillAt(s', p, pid, i)
            || (i < |s.procs| && s.procs[i].pid != pid && KillAt(s', p, pid, i + 1))
            || (s'.procs[p].pc.Idle? && i < |s.procs|
                && s.procs[i].pid == pid && s'.procs[i].killed && s'.procs[i].st != SLEEPING)
            || (s'.procs[p].pc.Idle? && i == |s.procs|)
  {
    hide PidsOk, SleepLocksOk, HandlersOk, FlagsOk, WakeupsOk, Base, PlacesOk, FamilyOk, LockStep, Kin;
    Running(s, c, p);
    Fields(s, c, p, e, s', p);
    if Core(s.procs[p].pc) != s.procs[p].pc {
      CoreKept(s, p, e);
    } else {
      if i < |s.procs| {
        Fields(s, c, p, e, s', i);
      }
      assert Kills(s, p, e) || Yields(s, p, e);
    }
  }

  lemma AllocStep(s: State, c: nat, p: nat, e: Effect, s': State, i: nat)
    requires Inv(s) && Own(s, c, p, e, s') && AllocAt(s, p, i)
    ensures |s'.procs| == |s.procs|
    ensures || AllocAt(s', p, i)
            || (i < |s.procs| && s.procs[i].st != UNUSED && AllocAt(s', p, i + 1))
            || (i < |s.procs| && s.procs[i].st == UNUSED && s'.procs[p].pc == ForkPid(i))
            || (s'.procs[p].pc.Idle? && i == |s.procs|)
  {
    hide PidsOk, SleepLocksOk, HandlersOk, FlagsOk, WakeupsOk, Base, PlacesOk, FamilyOk, LockStep, Kin;
    Running(s, c, p);
    Fields(s, c, p, e, s', p);
    if Core(s.procs[p].pc) != s.procs[p].pc {
      CoreKept(s, p, e);
    } else {
      assert Allocs(s, p, e) || Yields(s, p, e);
    }
  }

  /** A process in kill or fork is alive. */
  lemma StillAlive(s: State, p: nat)
    requires Inv(s) && p < |s.procs| && !Core(s.procs[p].pc).Idle?
    requires !Core(s.procs[p].pc).Dead? && !s.procs[p].pc.ExitRel? && !s.procs[p].pc.ExitSched?
    ensures Alive(s.procs[p])
  {
    hide PidsOk, SleepLocksOk, HandlersOk, FlagsOk, WakeupsOk, PlacesOk, FamilyOk, PcsOk, LocksOk, IntrsOk;
    assert ProcOk(s, p);
  }

  /** In a run, how far a process that has been in kill(pid) since state a has come. */
  lemma {:induction false} KillLooks(states: seq<State>, p: nat, pid: nat, a: nat, b: nat, i: nat)
    requires Run(states) && a <= b < |states| && KillAt(states[a], p, pid, 0) && KillAt(states[b], p, pid, i)
    requires forall k :: a <= k <= b ==> InKill(states[k], p, pid)
    ensures forall j :: 0 <= j < i ==> OncePid(states, a, b, j, pid)
    decreases b
  {
    hide Step, Inv, Initial, Own;
    if a < b {
      assert InKill(states[b - 1], p, pid);
      var h: nat :| KillAt(states[b - 1], p, pid, h);
      KillLooks(states, p, pid, a, b - 1, h);
      KillMoves(states, p, pid, b - 1, h);
      forall j | 0 <= j < i ensures OncePid(states, a, b, j, pid) {
        if j < h {
          assert OncePid(states, a, b - 1, j, pid);
        } else {
          assert states[b - 1].procs[j].pid != pid;
        }
      }
    }
  }

  lemma KillMoves(states: seq<State>, p: nat, pid: nat, k: nat, i: nat)
    requires Run(states) && k + 1 < |states| && KillAt(states[k], p, pid, i)
    ensures var s, s' := states[k], states[k + 1];
      && |s'.procs| == |s.procs| && p < |s.procs|
      && (|| KillAt(s', p, pid, i)
          || (i < |s.procs| && s.procs[i].pid != pid && KillAt(s', p, pid, i + 1))
          || (s'.procs[p].pc.Idle? && i < |s.procs|
              && s.procs[i].pid == pid && s'.procs[i].killed && s'.procs[i].st != SLEEPING)
          || (s'.procs[p].pc.Idle? && i == |s.procs|))
  {
    hide Step, Inv, Initial, Own;
    var s, s' := states[k], states[k + 1];
    RunInv(states, k);
    assert Next(s, s');
    var c :| Step(s, c, s');
    StillAlive(s, p);
    PcStays(s, c, s', p);
    if e :| Own(s, c, p, e, s') {
      KillStep(s, c, p, e, s', pid, i);
    }
  }

  /**
    A kill that began in state a and is over in state b + 1 has marked and woken a slot with that pid,
    or has found every slot, at some point, to have another.
   */
  lemma KillEnds(states: seq<State>, p: nat, pid: nat, a: nat, b: nat)
    requires Run(states) && a <= b < |states| - 1 && KillAt(states[a], p, pid, 0)
    requires forall k :: a <= k <= b ==> InKill(states[k], p, pid)
    requires !InKill(states[b + 1], p, pid)
    ensures || (exists i :: 0 <= i < |states[b].procs| && i < |states[b + 1].procs| && states[b].procs[i].pid == pid
                            && states[b + 1].procs[i].killed && states[b + 1].procs[i].st != SLEEPING)
            || (forall j :: 0 <= j < |states[b].procs| ==> OncePid(states, a, b, j, pid))
  {
    hide Step, Inv, Initial, Own;
    assert InKill(states[b], p, pid);
    var i: nat :| KillAt(states[b], p, pid, i);
    KillMoves(states, p, pid, b, i);
    if i == |states[b].procs| {
      KillLooks(states, p, pid, a, b, i);
    }
  }

  lemma AllocMoves(states: seq<State>, p: nat, k: nat, i: nat)
    requires Run(states) && k + 1 < |states| && AllocAt(states[k], p, i)
    ensures var s, s' := states[k], states[k + 1];
      && |s'.procs| == |s.procs| && p < |s.procs|
      && (|| AllocAt(s', p, i)
          || (i < |s.procs| && s.procs[i].st != UNUSED && AllocAt(s', p, i + 1))
          || (i < |s.procs| && s.procs[i].st == UNUSED && s'.procs[p].pc == ForkPid(i))
          || (s'.procs[p].pc.Idle? && i == |s.procs|))
  {
    hide Step, Inv, Initial, Own;
    var s, s' := states[k], states[k + 1];
    RunInv(states, k);
    assert Next(s, s');
    var c :| Step(s, c, s');
    StillAlive(s, p);
    PcStays(s, c, s', p);
    if e :| Own(s, c, p, e, s') {
      AllocStep(s, c, p, e, s', i);
    }
  }

  lemma {:induction false} AllocLooks(states: seq<State>, p: nat, a: nat, b: nat, i: nat)
    requires Run(states) && a <= b < |states| && AllocAt(states[a], p, 0) && AllocAt(states[b], p, i)
    requires forall k :: a <= k <= b ==> InAlloc(states[k], p)
    ensures forall j :: 0 <= j < i ==> OnceUsed(states, a, b, j)
    decreases b
  {
    hide Step, Inv, Initial, Own;
    if a < b {
      assert InAlloc(states[b - 1], p);
      var h: nat :| AllocAt(states[b - 1], p, h);
      AllocLooks(states, p, a, b - 1, h);
      AllocMoves(states, p, b - 1, h);
      forall j | 0 <= j < i ensures OnceUsed(states, a, b, j) {
        if j < h {
          assert OnceUsed(states, a, b - 1, j);
        } else {
          assert states[b - 1].procs[j].st != UNUSED;
        }
      }
    }
  }

  /** allocproc takes a slot that is UNUSED, or has found every slot, at some point, to be in use. */
  lemma AllocEnds(states: seq<State>, p: nat, a: nat, b: nat)
    requires Run(states) && a <= b < |states| - 1 && AllocAt(states[a], p, 0)
    requires forall k :: a <= k <= b ==> InAlloc(states[k], p)
    requires !InAlloc(states[b + 1], p)
    ensures || (exists i :: 0 <= i < |states[b].procs| && states[b].procs[i].st == UNUSED
                            && p < |states[b + 1].procs| && states[b + 1].procs[p].pc == ForkPid(i))
            || (forall j :: 0 <= j < |states[b].procs| ==> OnceUsed(states, a, b, j))
  {
    hide Step, Inv, Initial, Own;
    assert InAlloc(states[b], p);
    var i: nat :| AllocAt(states[b], p, i);
    AllocMoves(states, p, b, i);
    if i == |states[b].procs| {
      AllocLooks(states, p, a, b, i);
    }
  }

  // ---------------------------------------------------------------------------
  // fork and the scheduler
  // ---------------------------------------------------------------------------

  /** fork has taken a slot and has not returned. */
  predicate Making(pc: Pc) {
    pc.ForkPid? || pc.ForkPid2? || pc.ForkUsed? || pc.ForkWAcq? || pc.ForkWSet? || pc.ForkLAcq? || pc.ForkLSet?
  }

  lemma MakingEnds(s: State, p: nat, e: Effect)
    requires p < |s.procs| && Does(s, p, e) && Making(s.procs[p].pc) && !Making(Core(e.me.pc))
    ensures (s.procs[p].pc.ForkUsed? && Creates(s, p, e)) || (s.procs[p].pc.ForkLSet? && Starts(s, p, e))
  {
  }

  /** It returns with a child that can run, has the caller as parent and a pid, or having freed the slot again. */
  lemma ForkEnds(s: State, c: nat, p: nat, e: Effect, s': State)
    requires Inv(s) && Own(s, c, p, e, s') && Making(Core(s.procs[p].pc)) && !Making(Core(e.me.pc))
    ensures exists i :: 0 <= i < |s.procs| && i < |s'.procs| && s.procs[i].st == USED && s.procs[i].forker == p
              && (|| (s'.procs[i].st == RUNNABLE && s'.procs[i].parent == p && s'.procs[i].pid == s.procs[i].pid != 0
                      && s'.procs[i].pc == Resume(Idle))
                  || s'.procs[i].st == UNUSED)
  {
    hide SleepLocksOk, HandlersOk, FlagsOk, WakeupsOk, Base, PlacesOk, FamilyOk, LockStep, Kin, Does, PcOk, OnOk;
    Running(s, c, p);
    if Core(s.procs[p].pc) != s.procs[p].pc {
      CoreKept(s, p, e);
    } else {
      MakingEnds(s, p, e);
      Fields(s, c, p, e, s', s.procs[p].pc.i);
    }
  }

  /** The scheduler that has a RUNNABLE process in hand runs it. */
  lemma SchedulerRuns(s: State, c: nat, s': State, i: nat)
    requires Inv(s) && Step(s, c, s') && s.cpus[c].thr == OnSched(SHold(i)) && s.cpus[c].intr.NoIntr?
    requires i < |s.procs| && s.procs[i].st == RUNNABLE && i < |s'.procs| && c < |s'.cpus|
    ensures s'.procs[i].st == RUNNING && s'.cpus[c].thr == OnProc(i) && s'.procs[i].pc == s.procs[i].pc
  {
    hide PidsOk, SleepLocksOk, HandlersOk, FlagsOk, WakeupsOk, PlacesOk, FamilyOk, PcsOk, LockStep;
    assert IntrOk(s, c);
    assert In(PLock(i), HeldOn(s, c));
  }
}
