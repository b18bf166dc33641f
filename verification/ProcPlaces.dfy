/**
  What is known at each place of a thread survives the steps of all the others.
 */
module ProcPlaces {
  import opened ProcMachine
  import opened ProcInvariant
  import opened ProcSteps
  import opened ProcFrame

  /** A thread interrupted in a place holds no lock there. */
  lemma {:induction false} CoreHeld(s: State, q: nat, pc: Pc)
    requires PcOk(s, q, pc)
    ensures Core(pc) == pc || HeldAt(q, Core(pc)).Zero?
    ensures HeldAt(q, pc).Zero? ==> HeldAt(q, Core(pc)).Zero?
    ensures !Core(pc).YieldAcq? && !Core(pc).YieldSet? && !Core(pc).Resume?
    decreases pc
  {
    match pc
    case YieldAcq(r) => CoreHeld(s, q, r);
    case YieldSet(r) => CoreHeld(s, q, r);
    case Resume(r) => CoreHeld(s, q, r);
    case _ =>
  }

  /** Two processes never hold a lock at the same time. */
  lemma Apart(s: State, c: nat, p: nat, q: nat, l: Lock)
    requires Ready(s, c, p) && q < |s.procs| && q != p
    requires In(l, HeldAt(q, Core(s.procs[q].pc))) && !Core(s.procs[q].pc).Woken?
    ensures !In(l, HeldAt(p, s.procs[p].pc))
  {
    hide Kin, At, FamilyOk, PlacesOk, Core, PcOk;
    assert PcOk(s, q, s.procs[q].pc) && ProcOk(s, q) && CpuOk(s, c);
    CoreHeld(s, q, s.procs[q].pc);
    var d := s.procs[q].on;
    if 0 <= d < |s.cpus| && In(l, HeldAt(p, s.procs[p].pc)) {
      assert IntrOk(s, d);
      assert In(l, HeldOn(s, d)) && In(l, HeldOn(s, c));
      Excludes(s, c, d, l);
      assert false;
    }
    hide LocksOk, ThreadsOk, PcsOk;
  }

  // ---------------------------------------------------------------------------
  // Stability
  // ---------------------------------------------------------------------------

  /** A step of p, and a process q that does not take it. */
  ghost predicate Aside(s: State, c: nat, p: nat, e: Effect, s': State, q: nat) {
    Moved(s, c, p, e, s') && SameShape(s, s') && SleepLocksOk(s) && q < |s.procs| && q != p
  }

  lemma NoneWaitingStable(s: State, c: nat, p: nat, e: Effect, s': State, q: nat, ch: Chan, k: nat)
    requires Aside(s, c, p, e, s', q) && NoneWaiting(s, ch, k)
    requires !In(LockFor(ch), HeldAt(p, s.procs[p].pc))
    ensures NoneWaiting(s', ch, k)
  {
    forall j | 0 <= j < k && j < |s'.procs| ensures !Waiting(s'.procs[j], ch) {
      if Waiting(s'.procs[j], ch) {
        WaitingFrame(s, c, p, e, s', j, ch);
        assert false;
      }
    }
  }

  lemma NoChildStable(s: State, c: nat, p: nat, e: Effect, s': State, q: nat, k: nat)
    requires Aside(s, c, p, e, s', q) && NoChild(s, q, k) && !In(WaitLock, HeldAt(p, s.procs[p].pc))
    ensures NoChild(s', q, k)
  {
    hide Facts, HeldAt;
    forall j | 0 <= j < k && j < |s'.procs| ensures s'.procs[j].parent != q {
      FamilyFrame(s, c, p, e, s', j);
    }
  }

  lemma NoChildSame(s: State, c: nat, p: nat, e: Effect, s': State, q: nat, k: nat)
    requires Aside(s, c, p, e, s', q) && !In(WaitLock, HeldAt(p, s.procs[p].pc))
    ensures NoChild(s', q, k) <==> NoChild(s, q, k)
  {
    hide Facts, HeldAt;
    forall j | 0 <= j < |s.procs| ensures s'.procs[j].parent == s.procs[j].parent {
      FamilyFrame(s, c, p, e, s', j);
    }
  }

  lemma NoZombieStable(s: State, c: nat, p: nat, e: Effect, s': State, q: nat, k: nat)
    requires Aside(s, c, p, e, s', q) && NoZombie(s, q, k) && !In(WaitLock, HeldAt(p, s.procs[p].pc))
    ensures NoZombie(s', q, k)
  {
    hide Facts, HeldAt;
    forall j | 0 <= j < k && j < |s'.procs| ensures !(s'.procs[j].parent == q && s'.procs[j].st == ZOMBIE) {
      FamilyFrame(s, c, p, e, s', j);
    }
  }

  lemma OwnsNoLockStable(s: State, c: nat, p: nat, e: Effect, s': State, q: nat)
    requires Aside(s, c, p, e, s', q) && OwnsNoLock(s, q)
    ensures OwnsNoLock(s', q)
  {
    hide Facts, HeldAt;
    forall l | 0 <= l < |s'.sleeplocks| ensures s'.sleeplocks[l].owner != q {
      SleepLockFrame(s, c, p, e, s', l);
    }
  }

  lemma CreatingStable(s: State, c: nat, p: nat, e: Effect, s': State, q: nat, i: nat, parent: int, pc: Pc)
    requires Aside(s, c, p, e, s', q) && Creating(s, q, i, parent, pc) && parent != p
    ensures Creating(s', q, i, parent, pc)
  {
    hide Facts, HeldAt;
    Running(s, c, p);
    CreatingFrame(s, c, p, e, s', i);
  }

  lemma {:induction false} CorePc(s: State, q: nat, pc: Pc)
    requires PcOk(s, q, pc)
    ensures PcOk(s, q, Core(pc))
    decreases pc
  {
    match pc
    case YieldAcq(r) => CorePc(s, q, r);
    case YieldSet(r) => CorePc(s, q, r);
    case Resume(r) => CorePc(s, q, r);
    case _ =>
  }

  /** The place of q, where it holds lock `l`, which p then does not. */
  ghost predicate Place(s: State, c: nat, p: nat, e: Effect, s': State, q: nat, k: Pc) {
    Aside(s, c, p, e, s', q) && k == Core(s.procs[q].pc) && PcOk(s, q, k) && At(s, q, k)
  }

  lemma ExitStable(s: State, c: nat, p: nat, e: Effect, s': State, q: nat, k: Pc, n: nat)
    requires Place(s, c, p, e, s', q, k) && In(WaitLock, HeldAt(q, k)) && !k.Woken? && NoChild(s, q, n) &&
            OwnsNoLock(s, q)
    ensures NoChild(s', q, n) && OwnsNoLock(s', q) && s'.procs[q].parent == s.procs[q].parent
  {
    hide Facts, Ready, Apply, PcOk, At, SleepLocksOk;
    Apart(s, c, p, q, WaitLock);
    NoChildStable(s, c, p, e, s', q, n);
    OwnsNoLockStable(s, c, p, e, s', q);
    FamilyFrame(s, c, p, e, s', q);
  }

  lemma WakeStable(s: State, c: nat, p: nat, e: Effect, s': State, q: nat, k: Pc)
    requires Place(s, c, p, e, s', q, k) && (k.WakeNext? || k.WakeHave?)
    ensures At(s', q, k)
  {
    hide Facts, Ready, Apply, SleepLocksOk;
    Apart(s, c, p, q, k.lk);
    NoneWaitingStable(s, c, p, e, s', q, k.ch, k.i);
    if k.ret.ExitRep? {
      ExitStable(s, c, p, e, s', q, k, k.ret.i);
    } else if k.ret.ExitLock? {
      ExitStable(s, c, p, e, s', q, k, |s.procs|);
    }
  }

  lemma ParentStable(s: State, c: nat, p: nat, e: Effect, s': State, q: nat, k: Pc)
    requires Place(s, c, p, e, s', q, k) && (k.ExitLock? || k.ExitSet?)
    ensures At(s', q, k)
  {
    hide Facts, Ready, Apply, SleepLocksOk;
    ExitStable(s, c, p, e, s', q, k, |s.procs|);
    Apart(s, c, p, q, WaitLock);
    var w := s.procs[q].parent;
    if Waiting(s'.procs[w], ChanProc(w)) {
      WaitingFrame(s, c, p, e, s', w, ChanProc(w));
      assert false;
    }
  }

  lemma WaitStable(s: State, c: nat, p: nat, e: Effect, s': State, q: nat, k: Pc)
    requires Place(s, c, p, e, s', q, k) && (k.WaitScan? || k.WaitHave? || k.WaitKAcq? || k.WaitKHave?)
    ensures At(s', q, k)
  {
    hide Facts, Ready, Apply, SleepLocksOk;
    Apart(s, c, p, q, WaitLock);
    NoZombieStable(s, c, p, e, s', q, if k.WaitScan? || k.WaitHave? then k.i else |s.procs|);
    NoChildSame(s, c, p, e, s', q, if k.WaitScan? || k.WaitHave? then k.i else |s.procs|);
    if k.WaitHave? {
      FamilyFrame(s, c, p, e, s', k.i);
    }
  }

  lemma SleepStable(s: State, c: nat, p: nat, e: Effect, s': State, q: nat, k: Pc)
    requires Place(s, c, p, e, s', q, k) && (k.SleepAcq? || k.SleepRel?)
    ensures At(s', q, k)
  {
    hide Facts, Ready, Apply, SleepLocksOk;
    Apart(s, c, p, q, k.lk);
    match k.ch
    case NoChan =>
    case ChanLock(l) => SleepLockFrame(s, c, p, e, s', l);
    case ChanProc(_) => NoZombieStable(s, c, p, e, s', q, |s.procs|);
    case ChanCond(m, i) => CondFrame(s, c, p, e, s', m, i);
  }

  lemma ForkStable(s: State, c: nat, p: nat, e: Effect, s': State, q: nat, k: Pc)
    requires Place(s, c, p, e, s', q, k)
    requires k.ForkUsed? || k.ForkWAcq? || k.ForkWSet? || k.ForkLAcq? || k.ForkLSet?
    ensures At(s', q, k)
  {
    hide Facts, Ready, Apply, SleepLocksOk, HeldAt;
    var parent := if k.ForkLAcq? || k.ForkLSet? then q else -1;
    CreatingStable(s, c, p, e, s', q, k.i, parent, if k.ForkUsed? then Idle else Resume(Idle));
  }

  lemma AllocStable(s: State, c: nat, p: nat, e: Effect, s': State, q: nat, k: Pc)
    requires Place(s, c, p, e, s', q, k) && (k.ForkPid? || k.ForkPid2?)
    ensures At(s', q, k)
  {
    hide Facts, Ready, Apply, SleepLocksOk;
    Running(s, c, p);
    Apart(s, c, p, q, PLock(k.i));
    UnusedFrame(s, c, p, e, s', k.i);
  }

  /** What is known at the place of q is still known after a step of another process. */
  lemma AtStable(s: State, c: nat, p: nat, e: Effect, s': State, q: nat, k: Pc)
    requires Place(s, c, p, e, s', q, k)
    ensures At(s', q, k)
  {
    hide Facts, Ready, Apply, SleepLocksOk;
    match k
    case WakeNext(_, _, _, _) => WakeStable(s, c, p, e, s', q, k);
    case WakeHave(_, _, _, _) => WakeStable(s, c, p, e, s', q, k);
    case SleepAcq(_, _, _) => SleepStable(s, c, p, e, s', q, k);
    case SleepRel(_, _, _) => SleepStable(s, c, p, e, s', q, k);
    case SlRelAcq(l) => SleepLockFrame(s, c, p, e, s', l);
    case SlRelSet(l) => SleepLockFrame(s, c, p, e, s', l);
    case ExitAcq => OwnsNoLockStable(s, c, p, e, s', q);
    case ExitRep(i) => ExitStable(s, c, p, e, s', q, k, i);
    case ExitLock => ParentStable(s, c, p, e, s', q, k);
    case ExitSet => ParentStable(s, c, p, e, s', q, k);
    case WaitScan(_, _) => WaitStable(s, c, p, e, s', q, k);
    case WaitHave(_, _) => WaitStable(s, c, p, e, s', q, k);
    case WaitKAcq => WaitStable(s, c, p, e, s', q, k);
    case WaitKHave => WaitStable(s, c, p, e, s', q, k);
    case ForkPid(_) => AllocStable(s, c, p, e, s', q, k);
    case ForkPid2(_) => AllocStable(s, c, p, e, s', q, k);
    case ForkUsed(_) => ForkStable(s, c, p, e, s', q, k);
    case ForkWAcq(_) => ForkStable(s, c, p, e, s', q, k);
    case ForkWSet(_) => ForkStable(s, c, p, e, s', q, k);
    case ForkLAcq(_) => ForkStable(s, c, p, e, s', q, k);
    case ForkLSet(_) => ForkStable(s, c, p, e, s', q, k);
    case _ =>
  }
}
