/**
  Spinlocks are taken in one order, so the kernel does not wedge on them.
 */
module ProcProgress {
  import opened ProcMachine
  import opened ProcInvariant
  import opened ProcSteps
  import opened ProcFrame
  import opened ProcKept
  import opened ProcQuiet
  import opened ProcHandlers
  import opened ProcRuns

  lemma RestingEffect(s: State, p: nat) returns (e: Effect)
    requires p < |s.procs| && PcOk(s, p, s.procs[p].pc)
    requires var pc := s.procs[p].pc;
      pc.YieldSet? || pc.Resume? || pc.SleepAcq? || pc.SleepRel? || pc.SleepSet? || pc.Woken?
    ensures Does(s, p, e)
  {
    hide HeldAt;
    var r, n := s.procs[p], |s.procs|;
    match r.pc {
      case YieldSet(ret) => e := Scheds(s, p, r.(st := RUNNABLE, pc := Resume(ret))); assert Yields(s, p, e);
      case Resume(ret) => e := Releases(s, p, PLock(p), ret); assert Yields(s, p, e);
      case SleepAcq(ch, lk, ret) => e := Acquires(s, p, PLock(p), SleepRel(ch, lk, ret)); assert Sleeps(s, p, e);
      case SleepRel(ch, lk, ret) => e := Releases(s, p, lk, SleepSet(ch, lk, ret)); assert Sleeps(s, p, e);
      case SleepSet(ch, lk, ret) => e := Scheds(s, p,
          r.(st := SLEEPING, chan := ch, pc := Woken(lk, ret))); assert Sleeps(s, p, e);
      case Woken(lk, ret) =>
        e := Releases(s, p, PLock(p), Reacq(lk, ret)).(me := r.(chan := NoChan, pc := Reacq(lk, ret)));
        assert Sleeps(s, p, e);
    }
  }

  lemma WakingEffect(s: State, p: nat) returns (e: Effect)
    requires p < |s.procs| && PcOk(s, p, s.procs[p].pc)
    requires var pc := s.procs[p].pc; pc.WakeNext? || pc.WakeHave?
    ensures Does(s, p, e)
  {
    hide HeldAt;
    var r, n := s.procs[p], |s.procs|;
    match r.pc {
      case WakeNext(ch, i, lk, ret) =>
        e := if i >= n then Moves(s, p, ret) else if i == p then Moves(s, p, WakeNext(ch, i + 1, lk, ret))
             else Acquires(s, p, PLock(i), WakeHave(ch, i, lk, ret));
        assert Wakes(s, p, e);
      case WakeHave(ch, i, lk, ret) =>
        e := Releases(s, p, PLock(i), WakeNext(ch, i + 1, lk, ret));
        if s.procs[i].st == SLEEPING &&
            s.procs[i].chan == ch { e := e.(who := i, them := s.procs[i].(st := RUNNABLE)); }
        assert Wakes(s, p, e);
    }
  }

  lemma LockingEffect(s: State, p: nat) returns (e: Effect)
    requires p < |s.procs| && PcOk(s, p, s.procs[p].pc)
    requires var pc := s.procs[p].pc; pc.SlTest? || pc.SlDone? || pc.SlRelSet? || pc.SlRelDone?
    ensures Does(s, p, e)
  {
    hide HeldAt;
    var r, n := s.procs[p], |s.procs|;
    match r.pc {
      case SlTest(l) =>
        e := if s.sleeplocks[l].locked then Moves(s, p, SleepAcq(ChanLock(l), Inner(l), SlTest(l)))
             else Moves(s, p, SlDone(l)).(which := l, lock := SleepLock(true, r.pid, p));
        assert UsesSleepLock(s, p, e);
      case SlDone(l) => e := Releases(s, p, Inner(l), Idle); assert UsesSleepLock(s, p, e);
      case SlRelSet(l) =>
        e := Moves(s, p, WakeNext(ChanLock(l), 0, Inner(l), SlRelDone(l))).(which := l,
            lock := SleepLock(false, 0, -1));
        assert UsesSleepLock(s, p, e);
      case SlRelDone(l) => e := Releases(s, p, Inner(l), Idle); assert UsesSleepLock(s, p, e);
    }
  }

  lemma CondEffect(s: State, p: nat) returns (e: Effect)
    requires p < |s.procs| && s.procs[p].pc.CondHold?
    ensures Does(s, p, e)
  {
    hide HeldAt;
    var pc := s.procs[p].pc;
    if pc.due == {} {
      e := Releases(s, p, Monitor(pc.m), Idle);
    } else {
      var k :| k in pc.due;
      e := Moves(s, p, WakeNext(ChanCond(pc.m, k), 0, Monitor(pc.m), CondHold(pc.m, pc.due - {k})));
    }
    assert UsesCond(s, p, e);
  }

  lemma ExitingEffect(s: State, p: nat) returns (e: Effect)
    requires p < |s.procs| && PcOk(s, p, s.procs[p].pc) && (s.procs[p].pc.ExitRep? ==> s.procs[p].parent >= 0)
    requires var pc := s.procs[p].pc; pc.ExitRep? || pc.ExitLock? || pc.ExitSet? || pc.ExitRel? || pc.ExitSched?
    ensures Does(s, p, e)
  {
    hide HeldAt;
    var r, n := s.procs[p], |s.procs|;
    match r.pc {
      case ExitRep(i) =>
        e := if i >= n then Moves(s, p, WakeNext(ChanProc(r.parent), 0, WaitLock, ExitLock))
             else if s.procs[i].parent == p then
               Moves(s, p, WakeNext(ChanProc(s.initproc), 0, WaitLock, ExitRep(i + 1))).(who := i,
                   them := s.procs[i].(parent := s.initproc))
             else Moves(s, p, ExitRep(i + 1));
        assert Exits(s, p, e);
      case ExitLock => e := Acquires(s, p, PLock(p), ExitSet); assert Dies(s, p, e);
      case ExitSet =>
        e := Moves(s, p, ExitRel).(me := r.(st := ZOMBIE, pc := ExitRel), exited := s.exited + {r.pid});
        assert Dies(s, p, e);
      case ExitRel => e := Releases(s, p, WaitLock, ExitSched); assert Dies(s, p, e);
      case ExitSched => e := Scheds(s, p, r.(pc := Dead)); assert Dies(s, p, e);
    }
  }

  lemma WaiterEffect(s: State, p: nat) returns (e: Effect)
    requires p < |s.procs| && PcOk(s, p, s.procs[p].pc)
    requires var pc := s.procs[p].pc;
      pc.WaitScan? || pc.WaitHave? || pc.WaitKAcq? || pc.WaitKHave? || pc.WaitRet? || pc.WaitFail?
    ensures Does(s, p, e)
  {
    hide HeldAt;
    var r, n := s.procs[p], |s.procs|;
    match r.pc {
      case WaitScan(i, kids) =>
        e := if i >= n then Moves(s, p, if kids then WaitKAcq else WaitFail)
             else if s.procs[i].parent == p then Acquires(s, p, PLock(i), WaitHave(i, kids))
                 else Moves(s, p, WaitScan(i + 1, kids));
        assert Scans(s, p, e);
      case WaitHave(i, kids) =>
        e := Releases(s, p, PLock(i), if s.procs[i].st == ZOMBIE then WaitFail else WaitScan(i + 1, true));
        assert Reaps(s, p, e);
      case WaitKAcq => e := Acquires(s, p, PLock(p), WaitKHave); assert Returns(s, p, e);
      case WaitKHave =>
        e := Releases(s, p, PLock(p), if r.killed then WaitFail
            else SleepAcq(ChanProc(p), WaitLock, WaitScan(0, false)));
        assert Returns(s, p, e);
      case WaitRet => e := Releases(s, p, WaitLock, Idle); assert Returns(s, p, e);
      case WaitFail => e := Releases(s, p, WaitLock, Idle); assert Returns(s, p, e);
    }
  }

  lemma ForkingEffect(s: State, p: nat) returns (e: Effect)
    requires p < |s.procs| && PcOk(s, p, s.procs[p].pc)
    requires var pc := s.procs[p].pc; pc.ForkHave? || pc.ForkPid? || pc.ForkPid2? || pc.ForkUsed?
    ensures Does(s, p, e)
  {
    hide HeldAt;
    match s.procs[p].pc {
      case ForkHave(i) =>
        e := if s.procs[i].st == UNUSED then Moves(s, p, ForkPid(i)) else Releases(s, p, PLock(i), ForkScan(i + 1));
        assert Allocs(s, p, e);
      case ForkPid(i) => e := Acquires(s, p, PidLock, ForkPid2(i)); assert Creates(s, p, e);
      case ForkPid2(i) =>
        e := Releases(s, p, PidLock, ForkUsed(i))
             .(who := i, them := s.procs[i].(pid := s.nextpid, st := USED, forker := p), nextpid := s.nextpid + 1);
        assert Creates(s, p, e);
      case ForkUsed(i) =>
        e := Releases(s, p, PLock(i), ForkWAcq(i)).(who := i, them := s.procs[i].(pc := Resume(Idle)));
        assert Creates(s, p, e);
    }
  }

  lemma StartingEffect(s: State, p: nat) returns (e: Effect)
    requires p < |s.procs| && PcOk(s, p, s.procs[p].pc)
    requires var pc := s.procs[p].pc; pc.ForkWSet? || pc.ForkLSet? || pc.KillHave?
    ensures Does(s, p, e)
  {
    hide HeldAt;
    match s.procs[p].pc {
      case ForkWSet(i) =>
        e := Releases(s, p, WaitLock, ForkLAcq(i)).(who := i, them := s.procs[i].(parent := p));
        assert Forks(s, p, e);
      case ForkLSet(i) =>
        e := Releases(s, p, PLock(i), Idle).(who := i, them := s.procs[i].(st := RUNNABLE, forker := -1));
        assert Starts(s, p, e);
      case KillHave(pid, i) =>
        if s.procs[i].pid != pid {
          e := Releases(s, p, PLock(i), KillScan(pid, i + 1));
        } else if i == p {
          e := Releases(s, p, PLock(i), Idle).(me := s.procs[p].(killed := true, pc := Idle));
        } else {
          var st := if s.procs[i].st == SLEEPING then RUNNABLE else s.procs[i].st;
          e := Releases(s, p, PLock(i), Idle).(who := i, them := s.procs[i].(killed := true, st := st));
        }
        assert Kills(s, p, e);
    }
  }

  /** A thread that holds a lock always has a next step to take. */
  lemma HasEffect(s: State, c: nat, p: nat) returns (e: Effect)
    requires Ready(s, c, p) && !HeldAt(p, s.procs[p].pc).Zero?
    ensures Does(s, p, e)
  {
    hide At, PlacesOk, FamilyOk, Base, Does;
    Running(s, c, p);
    var pc := s.procs[p].pc;
    if pc.YieldSet? || pc.Resume? || pc.SleepAcq? || pc.SleepRel? || pc.SleepSet? || pc.Woken? {
      e := RestingEffect(s, p);
    } else if pc.WakeNext? || pc.WakeHave? {
      e := WakingEffect(s, p);
    } else if pc.SlTest? || pc.SlDone? || pc.SlRelSet? || pc.SlRelDone? {
      e := LockingEffect(s, p);
    } else if pc.CondHold? {
      e := CondEffect(s, p);
    } else if pc.ExitRep? || pc.ExitLock? || pc.ExitSet? || pc.ExitRel? || pc.ExitSched? {
      e := ExitingEffect(s, p);
    } else if pc.WaitScan? || pc.WaitHave? || pc.WaitKAcq? || pc.WaitKHave? || pc.WaitRet? || pc.WaitFail? {
      e := WaiterEffect(s, p);
    } else if pc.ForkHave? || pc.ForkPid? || pc.ForkPid2? || pc.ForkUsed? {
      e := ForkingEffect(s, p);
    } else {
      e := StartingEffect(s, p);
    }
  }

  /** The locks after an operation of CPU c. */
  function LocksAfter(s: State, c: nat, op: LockOp): (locks: map<Lock, nat>) {
    match op
    case NoOp => s.locks
    case Take(l) => s.locks[l := c]
    case Drop(l) => s.locks - {l}
  }

  /** The state that effect e of process p leads to, its lock being free. */
  function After(s: State, c: nat, p: nat, e: Effect): (s': State)
    requires c < |s.cpus| && p < |s.procs| && -1 <= e.who < |s.procs| && -1 <= e.which < |s.sleeplocks|
  {
    State((if e.who >= 0 then s.procs[e.who := e.them] else s.procs)[p := Kept(s.cpus[c], c, e)],
          s.cpus[c := Pushed(s.cpus[c], e.op).(thr := if e.sched then OnSched(SBack(p)) else OnProc(p))],
          LocksAfter(s, c, e.op),
          if e.which >= 0 then s.sleeplocks[e.which := e.lock] else s.sleeplocks,
          e.conds, s.initproc, e.nextpid, e.exited, e.waited)
  }

  /** A process takes its next step unless the lock it wants is taken. */
  lemma Enabled(s: State, c: nat, p: nat, e: Effect)
    requires Inv(s) && Acts(s, c, p) && Does(s, p, e) && (e.op.Take? ==> e.op.l !in s.locks)
    ensures exists s' :: Step(s, c, s')
  {
    hide Base, PlacesOk, FamilyOk, PidsOk, SleepLocksOk, HandlersOk, FlagsOk, WakeupsOk;
    hide Does, Touch, PcOk, HeldAt;
    FactsOf(s, c, p, e);
    var s' := After(s, c, p, e);
    assert Apply(s, c, p, e, s');
    assert ProcStep(s, c, p, s');
    assert Step(s, c, s');
  }

  /** A thread that holds a lock and wants another wants one of higher rank. */
  lemma WantsHigher(s: State, c: nat, p: nat, e: Effect, l: Lock)
    requires Inv(s) && Acts(s, c, p) && Does(s, p, e) && e.op.Take? && l in s.locks && s.locks[l] == c
    ensures Rank(l) < Rank(e.op.l)
  {
    hide PlacesOk, FamilyOk, PidsOk, SleepLocksOk, HandlersOk, FlagsOk, WakeupsOk, Does, Mine, Touch, TouchesOk, PcOk,
        Base;
    FactsOf(s, c, p, e);
    HolderIs(s, c, p, l);
    hide HeldAt;
  }

  /** The holder of a lock of the highest rank held can go on. */
  lemma TopHolderMoves(s: State, l: Lock)
    requires Inv(s) && l in s.locks && (forall k :: k in s.locks ==> Rank(k) <= Rank(l))
    ensures exists s' :: Step(s, s.locks[l], s')
  {
    hide PlacesOk, FamilyOk, PidsOk, SleepLocksOk, HandlersOk, FlagsOk, WakeupsOk, PcsOk, Does, HeldAt;
    var c := s.locks[l];
    assert CpuOk(s, c) && In(l, HeldOn(s, c));
    if !s.cpus[c].intr.NoIntr? {
      HandlerMovesOn(s, c, l);
    } else {
      match s.cpus[c].thr
      case OnProc(p) =>
        var e := HasEffect(s, c, p);
        if e.op.Take? {
          WantsHigher(s, c, p, e, l);
        }
        Enabled(s, c, p, e);
      case OnSched(_) => SchedMovesOn(s, c);
    }
  }

  /** A scheduler that holds the lock of a process releases it or runs the process. */
  lemma SchedMovesOn(s: State, c: nat)
    requires Inv(s) && c < |s.cpus| && s.cpus[c].thr.OnSched? && !s.cpus[c].thr.spc.SScan? && s.cpus[c].intr.NoIntr?
    ensures exists s' :: Step(s, c, s')
  {
    hide PlacesOk, FamilyOk, PidsOk, SleepLocksOk, HandlersOk, FlagsOk, WakeupsOk, PcsOk, IntrsOk, HeldAt;
    assert CpuOk(s, c);
    hide LocksOk, ThreadsOk;
    var k, i := s.cpus[c], s.cpus[c].thr.spc.i;
    if k.thr.spc.SHold? && s.procs[i].st == RUNNABLE {
      var intena := Restored(k, s.procs[i]);
      var s' := s.(procs := s.procs[i := s.procs[i].(st := RUNNING, on := c, before := intena)],
                   cpus := s.cpus[c := k.(thr := OnProc(i), proc := i, intena := intena)]);
      assert SchedStep(s, c, s');
      assert Step(s, c, s');
    } else {
      var s' := s.(cpus := s.cpus[c := Pushed(k, Drop(PLock(i))).(thr := OnSched(SScan(i + 1)), proc := -1)],
                   locks := s.locks - {PLock(i)});
      assert SchedStep(s, c, s');
      assert Step(s, c, s');
    }
  }

  /** The state after a step of a handler that wakes nobody and changes no condition. */
  function Handled(s: State, c: nat, op: LockOp, h: Intr): (s': State)
    requires c < |s.cpus|
  {
    s.(cpus := s.cpus[c := Pushed(s.cpus[c], op).(intr := h)], locks := LocksAfter(s, c, op))
  }

  /** A handler that holds a lock goes on with wakeup, or lets go of the lock. */
  lemma HandlerMovesOn(s: State, c: nat, l: Lock)
    requires Inv(s) && c < |s.cpus| && !HeldIn(s.cpus[c].intr).Zero?
    requires l in s.locks && s.locks[l] == c && (forall k :: k in s.locks ==> Rank(k) <= Rank(l))
    ensures exists s' :: Step(s, c, s')
  {
    hide PlacesOk, FamilyOk, PidsOk, SleepLocksOk, HandlersOk, FlagsOk, WakeupsOk, PcsOk, ThreadsOk, HeldAt;
    assert IntrOk(s, c) && In(l, HeldOn(s, c));
    hide LocksOk, IntrsOk;
    match s.cpus[c].intr
    case IHold(m, due) => HoldMovesOn(s, c);
    case INext(m, k, i, due) =>
      var op := IntrOp(s, c, s.cpus[c].intr);
      var s' := Handled(s, c, op, if i >= |s.procs| then IHold(m, due) else if op.NoOp? then INext(m, k, i + 1, due)
                                  else IHave(m, k, i, due));
      assert IntrWakes(s, c, s');
      assert IntrStep(s, c, s');
      assert Step(s, c, s');
    case IHave(m, k, i, due) =>
      var wakes := s.procs[i].st == SLEEPING && s.procs[i].chan == ChanCond(m, k);
      var s' := Handled(s, c, Drop(PLock(i)), INext(m, k, i + 1, due))
                .(procs := if wakes then s.procs[i := s.procs[i].(st := RUNNABLE)] else s.procs);
      assert IntrWakes(s, c, s');
      assert IntrStep(s, c, s');
      assert Step(s, c, s');
  }

  lemma HoldMovesOn(s: State, c: nat)
    requires c < |s.cpus| && s.cpus[c].intr.IHold?
    ensures exists s' :: Step(s, c, s')
  {
    var h := s.cpus[c].intr;
    if h.due == {} {
      var s' := Handled(s, c, Drop(Monitor(h.m)), NoIntr);
      var s'' := s'.(cpus := s'.cpus[c := s'.cpus[c].(ie := true)]);
      assert CpuMoves(s, c, Drop(Monitor(h.m)), Pushed(s.cpus[c], Drop(Monitor(h.m))).(intr := NoIntr, ie := true),
          s'');
      assert IntrStep(s, c, s'');
      assert Step(s, c, s'');
    } else {
      var k :| k in h.due;
      var s' := Handled(s, c, NoOp, INext(h.m, k, 0, h.due - {k}));
      assert IntrCond(s, c, h.m, h.due, k, s');
      assert IntrStep(s, c, s');
      assert Step(s, c, s');
    }
  }

  /**
    Whenever a spinlock is held, a CPU that holds one can take its next step: no set of CPUs waits for
    each other's locks.
   */
  lemma NoDeadlock(s: State)
    requires Inv(s) && s.locks != map[]
    ensures exists l, s' :: l in s.locks && Step(s, s.locks[l], s')
  {
    hide Inv;
    var l: Lock := *;
    if PidLock in s.locks {
      l := PidLock;
    } else if k :| k in s.locks && k.PLock? {
      l := k;
    } else {
      assert s.locks.Keys != {};
      l :| l in s.locks;
    }
    assert forall k :: k in s.locks ==> Rank(k) <= Rank(l);
    TopHolderMoves(s, l);
    var s' :| Step(s, s.locks[l], s');
  }
}
