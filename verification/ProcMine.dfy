/**
  What a process knows at the place its own step takes it to.
 */
module ProcMine {
  import opened ProcMachine
  import opened ProcInvariant
  import opened ProcSteps
  import opened ProcFrame
  import opened ProcPlaces

  predicate Wrapped(pc: Pc) { pc.YieldAcq? || pc.YieldSet? || pc.Resume? }

  /** A step of p, and the place it is taken from. */
  ghost predicate From(s: State, c: nat, p: nat, e: Effect, s': State) {
    && Moved(s, c, p, e, s') && SameShape(s, s')
    && PcOk(s, p, s.procs[p].pc) && At(s, p, s.procs[p].pc) && OnOk(s.procs[p].st, s.procs[p].pc) && Kin(s, p)
  }

  /** A step that touches no other process changes p alone. */
  lemma Alone(s: State, c: nat, p: nat, e: Effect, s': State, j: nat)
    requires From(s, c, p, e, s') && j < |s.procs|
    ensures j != p && j != e.who ==> s'.procs[j] == s.procs[j]
    ensures j != p && j == e.who ==> s'.procs[j] == e.them
    ensures s'.procs[p].parent == s.procs[p].parent && s'.procs[p].pid == s.procs[p].pid
    ensures s'.procs[p].st == e.me.st && s'.procs[p].pc == e.me.pc
  {
    hide Base, PlacesOk, FamilyOk, LockStep, TouchesOk, HoldsOk, PcOk, At, OnOk, Kin, Touch;
    Fields(s, c, p, e, s', j);
    Fields(s, c, p, e, s', p);
  }

  lemma SameNoChild(s: State, c: nat, p: nat, e: Effect, s': State, k: nat)
    requires From(s, c, p, e, s') && NoChild(s, p, k) && (e.who >= 0 ==>
            e.who < |s.procs| && e.them.parent == s.procs[e.who].parent)
    ensures NoChild(s', p, k)
  {
    hide Moved, PcOk, At, OnOk, Kin;
    forall j | 0 <= j < k && j < |s'.procs| ensures s'.procs[j].parent != p { Alone(s, c, p, e, s', j); }
  }

  lemma SameNoZombie(s: State, c: nat, p: nat, e: Effect, s': State, k: nat)
    requires From(s, c, p, e, s') && NoZombie(s, p, k) && e.who < 0 && s.procs[p].parent != p
    ensures NoZombie(s', p, k)
  {
    hide Moved, PcOk, At, OnOk, Kin;
    forall j | 0 <= j < k &&
        j < |s'.procs| ensures !(s'.procs[j].parent == p && s'.procs[j].st == ZOMBIE) { Alone(s, c, p, e, s', j); }
  }

  lemma SameSleepLocks(s: State, c: nat, p: nat, e: Effect, s': State)
    requires From(s, c, p, e, s') && e.which < 0
    ensures s'.sleeplocks == s.sleeplocks
  {
    hide Ready, Facts, PcOk, At, OnOk, Kin, LockStep;
  }

  lemma SameConds(s: State, c: nat, p: nat, e: Effect, s': State)
    requires From(s, c, p, e, s') && !s.procs[p].pc.CondHold?
    ensures s'.conds == s.conds
  {
    hide Ready, PcOk, At, OnOk, Kin, LockStep, TouchesOk, HoldsOk, Touch;
  }

  lemma BeginsAt(s: State, c: nat, p: nat, e: Effect, s': State)
    requires From(s, c, p, e, s') && Begins(s, p, e)
    ensures At(s', p, e.me.pc) && !Wrapped(e.me.pc)
  {
    hide Moved, PcOk, OnOk, Kin;
    SameSleepLocks(s, c, p, e, s');
  }

  lemma SleepsAt(s: State, c: nat, p: nat, e: Effect, s': State)
    requires From(s, c, p, e, s') && Sleeps(s, p, e)
    ensures At(s', p, e.me.pc) && !Wrapped(e.me.pc)
  {
    hide Base, PlacesOk, FamilyOk, Facts, Apply, OnOk, HeldAt;
    SameSleepLocks(s, c, p, e, s');
    SameConds(s, c, p, e, s');
    if s.procs[p].pc.SleepAcq? && s.procs[p].pc.ch.ChanProc? {
      SameNoZombie(s, c, p, e, s', |s.procs|);
    }
  }

  /** An interrupt does not change the place, and no lock is held there. */
  lemma YieldsCore(s: State, p: nat, e: Effect)
    requires p < |s.procs| && Yields(s, p, e) && PcOk(s, p, s.procs[p].pc)
    ensures Core(e.me.pc) == Core(s.procs[p].pc) && HeldAt(p, Core(s.procs[p].pc)).Zero?
  {
    CoreHeld(s, p, s.procs[p].pc);
  }

  lemma YieldsAt(s: State, c: nat, p: nat, e: Effect, s': State)
    requires From(s, c, p, e, s') && Yields(s, p, e) && At(s, p, Core(s.procs[p].pc))
    ensures At(s', p, Core(e.me.pc))
  {
    hide Base, PlacesOk, FamilyOk, Facts, Apply, Kin, PcOk, Core;
    YieldsCore(s, p, e);
    SameSleepLocks(s, c, p, e, s');
    var k := Core(s.procs[p].pc);
    if k.ForkWAcq? || k.ForkLAcq? {
      Alone(s, c, p, e, s', k.i);
    }
  }

  lemma UsesSleepLockAt(s: State, c: nat, p: nat, e: Effect, s': State)
    requires From(s, c, p, e, s') && UsesSleepLock(s, p, e)
    ensures At(s', p, e.me.pc) && !Wrapped(e.me.pc)
  {
    hide Facts, Base, PlacesOk, FamilyOk, LockStep, Kin, OnOk, HeldAt;
    if e.which < 0 {
      SameSleepLocks(s, c, p, e, s');
    }
  }

  lemma UsesCondAt(s: State, c: nat, p: nat, e: Effect, s': State)
    requires From(s, c, p, e, s') && UsesCond(s, p, e)
    ensures At(s', p, e.me.pc) && !Wrapped(e.me.pc)
  {
    hide Facts, Base, PlacesOk, FamilyOk, LockStep, Kin, OnOk, HeldAt;
  }

  lemma SetsCondAt(s: State, c: nat, p: nat, e: Effect, s': State)
    requires From(s, c, p, e, s') && SetsCond(s, p, e)
    ensures At(s', p, e.me.pc) && !Wrapped(e.me.pc)
  {
    hide Facts, Base, PlacesOk, FamilyOk, LockStep, Kin, OnOk, HeldAt;
  }

  /** A step that touches nobody else changes nobody's children. */
  lemma SameChildren(s: State, c: nat, p: nat, e: Effect, s': State, k: nat)
    requires From(s, c, p, e, s') && e.who < 0
    ensures NoChild(s', p, k) <==> NoChild(s, p, k)
  {
    hide Moved, PcOk, At, OnOk, Kin;
    forall j | 0 <= j < |s.procs| ensures s'.procs[j].parent == s.procs[j].parent { Alone(s, c, p, e, s', j); }
  }

  lemma ChildrenMore(s: State, p: nat, i: nat)
    requires i < |s.procs|
    ensures NoChild(s, p, i + 1) <==> NoChild(s, p, i) && s.procs[i].parent != p
  {
  }

  /** One more slot of the table has been passed by. */
  lemma NoZombieMore(s: State, p: nat, i: nat)
    requires NoZombie(s, p, i) && (i < |s.procs| ==> !(s.procs[i].parent == p && s.procs[i].st == ZOMBIE))
    ensures NoZombie(s, p, i + 1)
  {
  }

  lemma ScanAt(s: State, c: nat, p: nat, e: Effect, s': State)
    requires From(s, c, p, e, s') && Scans(s, p, e) && s.procs[p].pc.WaitScan?
    ensures At(s', p, e.me.pc) && !Wrapped(e.me.pc)
  {
    hide Base, PlacesOk, FamilyOk, Facts, Apply, OnOk, NoZombie, NoChild, HeldAt;
    var i := s.procs[p].pc.i;
    SameNoZombie(s, c, p, e, s', i);
    SameChildren(s, c, p, e, s', i);
    if i < |s.procs| {
      Alone(s, c, p, e, s', i);
      if s.procs[i].parent != p {
        NoZombieMore(s', p, i);
        ChildrenMore(s', p, i);
      }
    }
  }

  lemma HaveAt(s: State, c: nat, p: nat, e: Effect, s': State)
    requires From(s, c, p, e, s') && Reaps(s, p, e) && e.me.pc.WaitScan?
    ensures At(s', p, e.me.pc) && !Wrapped(e.me.pc)
  {
    hide Base, PlacesOk, FamilyOk, Facts, Apply, OnOk, NoZombie, NoChild, HeldAt;
    var i := s.procs[p].pc.i;
    SameNoZombie(s, c, p, e, s', i);
    SameChildren(s, c, p, e, s', i);
    Alone(s, c, p, e, s', i);
    NoZombieMore(s', p, i);
    ChildrenMore(s', p, i);
  }

  lemma ScansAt(s: State, c: nat, p: nat, e: Effect, s': State)
    requires From(s, c, p, e, s') && Scans(s, p, e)
    ensures At(s', p, e.me.pc) && !Wrapped(e.me.pc)
  {
    hide Base, PlacesOk, FamilyOk, Facts, Apply, OnOk, Kin, PcOk, HeldAt;
    if s.procs[p].pc.WaitScan? {
      ScanAt(s, c, p, e, s');
    }
  }

  lemma ReapsAt(s: State, c: nat, p: nat, e: Effect, s': State)
    requires From(s, c, p, e, s') && Reaps(s, p, e)
    ensures At(s', p, e.me.pc) && !Wrapped(e.me.pc)
  {
    hide Base, PlacesOk, FamilyOk, Facts, Apply, OnOk, Kin, PcOk, HeldAt;
    if e.me.pc.WaitScan? {
      HaveAt(s, c, p, e, s');
    }
  }

  lemma ReturnsAt(s: State, c: nat, p: nat, e: Effect, s': State)
    requires From(s, c, p, e, s') && Returns(s, p, e)
    ensures At(s', p, e.me.pc) && !Wrapped(e.me.pc)
  {
    hide Base, PlacesOk, FamilyOk, Facts, Apply, OnOk, PcOk, HeldAt;
    if s.procs[p].pc.WaitKAcq? || s.procs[p].pc.WaitKHave? {
      SameNoZombie(s, c, p, e, s', |s.procs|);
      SameChildren(s, c, p, e, s', |s.procs|);
    }
  }

  lemma ChildAt(s: State, c: nat, p: nat, e: Effect, s': State)
    requires From(s, c, p, e, s') && Creates(s, p, e) && !s.procs[p].pc.ForkPid?
    ensures At(s', p, e.me.pc) && !Wrapped(e.me.pc)
  {
    hide Base, PlacesOk, FamilyOk, Facts, Apply, Kin, HeldAt, PcOk, OnOk;
    var pc := s.procs[p].pc;
    Child(s, c, p, pc.i);
    if pc.ForkPid2? {
      NoParentYet(s, c, p, pc.i);
    }
    Alone(s, c, p, e, s', pc.i);
  }

  lemma AllocsAt(s: State, c: nat, p: nat, e: Effect, s': State)
    requires From(s, c, p, e, s') && Allocs(s, p, e)
    ensures At(s', p, e.me.pc) && !Wrapped(e.me.pc)
  {
    hide Base, PlacesOk, FamilyOk, Facts, Apply, Kin, HeldAt, OnOk;
    if s.procs[p].pc.ForkHave? {
      Alone(s, c, p, e, s', s.procs[p].pc.i);
    }
  }

  lemma CreatesAt(s: State, c: nat, p: nat, e: Effect, s': State)
    requires From(s, c, p, e, s') && Creates(s, p, e)
    ensures At(s', p, e.me.pc) && !Wrapped(e.me.pc)
  {
    hide Base, PlacesOk, FamilyOk, Facts, Apply, Kin, HeldAt, OnOk;
    if s.procs[p].pc.ForkPid? {
      Alone(s, c, p, e, s', s.procs[p].pc.i);
    } else {
      ChildAt(s, c, p, e, s');
    }
  }

  lemma NoParentYet(s: State, c: nat, p: nat, i: nat)
    requires Ready(s, c, p) && i < |s.procs| && s.procs[i].st == UNUSED
    ensures s.procs[i].parent == -1
  {
    assert Kin(s, i);
  }

  lemma ForksAt(s: State, c: nat, p: nat, e: Effect, s': State)
    requires From(s, c, p, e, s') && Forks(s, p, e)
    ensures At(s', p, e.me.pc) && !Wrapped(e.me.pc)
  {
    hide Base, PlacesOk, FamilyOk, Facts, Apply, Kin, HeldAt;
    Alone(s, c, p, e, s', s.procs[p].pc.i);
  }

  lemma StartsAt(s: State, c: nat, p: nat, e: Effect, s': State)
    requires From(s, c, p, e, s') && Starts(s, p, e)
    ensures At(s', p, e.me.pc) && !Wrapped(e.me.pc)
  {
    hide Base, PlacesOk, FamilyOk, Facts, Apply, Kin, HeldAt;
    Alone(s, c, p, e, s', s.procs[p].pc.i);
  }

  lemma KillsAt(s: State, c: nat, p: nat, e: Effect, s': State)
    requires From(s, c, p, e, s') && Kills(s, p, e)
    ensures At(s', p, e.me.pc) && !Wrapped(e.me.pc)
  {
    hide Base, PlacesOk, FamilyOk, Facts, Apply, Kin, HeldAt, OnOk;
  }

  // ---------------------------------------------------------------------------
  // wakeup and exit
  // ---------------------------------------------------------------------------

  /** A process whose lock another thread holds is not between releasing a lock and sleeping. */
  lemma NotFallingAsleep(s: State, c: nat, p: nat, i: nat)
    requires Ready(s, c, p) && i < |s.procs| && i != p && In(PLock(i), HeldAt(p, s.procs[p].pc))
    ensures !s.procs[i].pc.SleepSet?
  {
    hide PlacesOk, FamilyOk, PcsOk;
    assert ProcOk(s, i) && CpuOk(s, c);
    if s.procs[i].pc.SleepSet? {
      assert IntrOk(s, s.procs[i].on);
      assert In(PLock(i), HeldOn(s, s.procs[i].on)) && In(PLock(i), HeldOn(s, c));
      Excludes(s, c, s.procs[i].on, PLock(i));
      assert false;
    }
  }

  /** Nobody below k comes to wait while p is in wakeup. */
  lemma SameNoneWaiting(s: State, c: nat, p: nat, e: Effect, s': State, ch: Chan, k: nat)
    requires From(s, c, p, e, s') && NoneWaiting(s, ch, k) && !s.procs[p].pc.SleepRel?
    ensures NoneWaiting(s', ch, k)
  {
    hide PcOk, At, OnOk, Kin, Waiting;
    forall j | 0 <= j < k && j < |s'.procs| ensures !Waiting(s'.procs[j], ch) {
      if Waiting(s'.procs[j], ch) {
        WaitingFrame(s, c, p, e, s', j, ch);
        assert false;
      }
    }
  }

  lemma NoneWaitingMore(s: State, ch: Chan, i: nat)
    requires NoneWaiting(s, ch, i) && (i < |s.procs| ==> !Waiting(s.procs[i], ch))
    ensures NoneWaiting(s, ch, i + 1)
  {
  }

  /** What is remembered across the call of wakeup is still so. */
  lemma SameAfterWake(s: State, c: nat, p: nat, e: Effect, s': State, ch: Chan, ret: Pc)
    requires From(s, c, p, e, s') && Wakes(s, p, e) && AfterWake(s, p, ch, ret)
    ensures AfterWake(s', p, ch, ret)
  {
    hide PcOk, At, OnOk, Kin, TouchesOk, HoldsOk, Base, PlacesOk, FamilyOk, Apply, HeldAt;
    SameSleepLocks(s, c, p, e, s');
    Alone(s, c, p, e, s', p);
    if ret.ExitRep? {
      SameNoChild(s, c, p, e, s', ret.i);
    } else if ret.ExitLock? {
      SameNoChild(s, c, p, e, s', |s.procs|);
    }
  }

  lemma WakeNextAt(s: State, c: nat, p: nat, e: Effect, s': State)
    requires From(s, c, p, e, s') && Wakes(s, p, e) && s.procs[p].pc.WakeNext?
    ensures At(s', p, e.me.pc) && !Wrapped(e.me.pc)
  {
    hide Base, PlacesOk, FamilyOk, Facts, Apply, NoneWaiting, NoChild, OwnsNoLock, HeldAt;
    var pc := s.procs[p].pc;
    SameNoneWaiting(s, c, p, e, s', pc.ch, pc.i);
    SameAfterWake(s, c, p, e, s', pc.ch, pc.ret);
    Alone(s, c, p, e, s', p);
    if pc.i == p {
      NoneWaitingMore(s', pc.ch, p);
    }
    if pc.i >= |s.procs| && pc.ret.ExitLock? {
      LastAwake(s', p, pc.ch, pc.i);
    }
  }

  lemma LastAwake(s: State, p: nat, ch: Chan, i: nat)
    requires p < |s.procs| && i >= |s.procs| && NoneWaiting(s, ch, i) && 0 <= s.procs[p].parent < |s.procs| &&
            ch == ChanProc(s.procs[p].parent)
    ensures ParentAwake(s, p)
  {
  }

  lemma WakeHaveAt(s: State, c: nat, p: nat, e: Effect, s': State)
    requires From(s, c, p, e, s') && Wakes(s, p, e) && s.procs[p].pc.WakeHave?
    ensures At(s', p, e.me.pc) && !Wrapped(e.me.pc)
  {
    hide Base, PlacesOk, FamilyOk, Facts, Apply, NoneWaiting, AfterWake, Kin;
    var pc := s.procs[p].pc;
    SameNoneWaiting(s, c, p, e, s', pc.ch, pc.i);
    SameAfterWake(s, c, p, e, s', pc.ch, pc.ret);
    NotFallingAsleep(s, c, p, pc.i);
    Alone(s, c, p, e, s', pc.i);
    NoneWaitingMore(s', pc.ch, pc.i);
  }

  lemma WakesAt(s: State, c: nat, p: nat, e: Effect, s': State)
    requires From(s, c, p, e, s') && Wakes(s, p, e)
    ensures At(s', p, e.me.pc) && !Wrapped(e.me.pc)
  {
    hide Base, PlacesOk, FamilyOk, Facts, Apply, At, PcOk, OnOk, Kin;
    if s.procs[p].pc.WakeNext? {
      WakeNextAt(s, c, p, e, s');
    } else {
      WakeHaveAt(s, c, p, e, s');
    }
  }

  lemma ReparentAt(s: State, c: nat, p: nat, e: Effect, s': State)
    requires From(s, c, p, e, s') && Exits(s, p, e) && s.procs[p].pc.ExitRep? && s.procs[p].pc.i < |s.procs|
    ensures At(s', p, e.me.pc) && !Wrapped(e.me.pc)
  {
    hide Base, PlacesOk, FamilyOk, Facts, Apply, HeldAt;
    var i := s.procs[p].pc.i;
    SameSleepLocks(s, c, p, e, s');
    forall j | 0 <= j < i + 1 && j < |s'.procs| ensures s'.procs[j].parent != p {
      Alone(s, c, p, e, s', j);
    }
    assert NoChild(s', p, i + 1);
  }

  lemma ExitsAt(s: State, c: nat, p: nat, e: Effect, s': State)
    requires From(s, c, p, e, s') && Exits(s, p, e)
    ensures At(s', p, e.me.pc) && !Wrapped(e.me.pc)
  {
    hide Base, PlacesOk, FamilyOk, Facts, Apply, HeldAt, OnOk, Waiting;
    var pc := s.procs[p].pc;
    if pc.ExitRep? && pc.i < |s.procs| {
      ReparentAt(s, c, p, e, s');
    } else {
      SameSleepLocks(s, c, p, e, s');
      if pc.ExitRep? {
        SameNoChild(s, c, p, e, s', pc.i);
        Alone(s, c, p, e, s', p);
      }
    }
  }

  lemma DiesAt(s: State, c: nat, p: nat, e: Effect, s': State)
    requires From(s, c, p, e, s') && Dies(s, p, e)
    ensures At(s', p, e.me.pc) && !Wrapped(e.me.pc)
  {
    hide Base, PlacesOk, FamilyOk, Facts, Apply, HeldAt, OnOk, Waiting;
    SameSleepLocks(s, c, p, e, s');
    if s.procs[p].pc.ExitLock? {
      SameNoChild(s, c, p, e, s', |s.procs|);
      Alone(s, c, p, e, s', p);
      Alone(s, c, p, e, s', s.procs[p].parent);
    }
  }
}
