/**
  The invariant of the process machine under one step of a process.
 */
module ProcFrame {
  import opened ProcMachine
  import opened ProcInvariant
  import opened ProcSteps

  lemma FactsOf(s: State, c: nat, p: nat, e: Effect)
    requires Ready(s, c, p) && Does(s, p, e)
    ensures Facts(s, p, e)
  {
    hide Touch, Mine, TouchesOk, HoldsOk, PcOk, At, Kin, OnOk;
    Running(s, c, p);
    hide Base, PlacesOk, FamilyOk;
    hide Begins, Yields, Sleeps, Wakes, UsesSleepLock, UsesCond, SetsCond, Exits, Dies;
    hide Scans, Reaps, Returns, Allocs, Creates, Forks, Starts, Kills;
    if Begins(s, p, e) {
      BeginsHolds(s, p, e); BeginsPc(s, p, e); BeginsMine(s, p, e); BeginsTouch(s, p, e);
    } else if Yields(s, p, e) {
      YieldsHolds(s, p, e); YieldsPc(s, p, e); YieldsMine(s, p, e); YieldsTouch(s, p, e);
    } else if Sleeps(s, p, e) {
      SleepsHolds(s, p, e); SleepsPc(s, p, e); SleepsMine(s, p, e); SleepsTouch(s, p, e);
    } else if Wakes(s, p, e) {
      WakesHolds(s, p, e); WakesPc(s, p, e); WakesMine(s, p, e); WakesTouch(s, c, p, e);
    } else if UsesSleepLock(s, p, e) {
      UsesSleepLockHolds(s, p, e); UsesSleepLockPc(s, p, e); UsesSleepLockMine(s, p, e); UsesSleepLockTouch(s, p, e);
    } else if UsesCond(s, p, e) {
      UsesCondHolds(s, p, e); UsesCondPc(s, p, e); UsesCondMine(s, p, e); UsesCondTouch(s, p, e);
    } else if SetsCond(s, p, e) {
      SetsCondHolds(s, p, e); SetsCondPc(s, p, e); SetsCondMine(s, p, e); SetsCondTouch(s, p, e);
    } else if Exits(s, p, e) {
      ExitsHolds(s, p, e); ExitsPc(s, p, e); ExitsMine(s, p, e); ExitsTouch(s, c, p, e);
    } else if Dies(s, p, e) {
      DiesHolds(s, p, e); DiesPc(s, p, e); DiesMine(s, p, e); DiesTouch(s, p, e);
    } else if Scans(s, p, e) {
      ScansHolds(s, p, e); ScansPc(s, p, e); ScansMine(s, p, e); ScansTouch(s, p, e);
    } else if Reaps(s, p, e) {
      ReapsHolds(s, p, e); ReapsPc(s, p, e); ReapsMine(s, p, e); ReapsTouch(s, c, p, e);
    } else if Returns(s, p, e) {
      ReturnsHolds(s, p, e); ReturnsPc(s, p, e); ReturnsMine(s, p, e); ReturnsTouch(s, p, e);
    } else if Allocs(s, p, e) {
      AllocsHolds(s, p, e); AllocsPc(s, p, e); AllocsMine(s, p, e); AllocsTouch(s, p, e);
    } else if Creates(s, p, e) {
      CreatesHolds(s, p, e); CreatesPc(s, p, e); CreatesMine(s, p, e); CreatesTouch(s, c, p, e);
    } else if Forks(s, p, e) {
      ForksHolds(s, p, e); ForksPc(s, p, e); ForksMine(s, p, e); ForksTouch(s, c, p, e);
    } else if Starts(s, p, e) {
      StartsHolds(s, p, e); StartsPc(s, p, e); StartsMine(s, p, e); StartsTouch(s, c, p, e);
    } else if Kills(s, p, e) {
      KillsHolds(s, p, e); KillsPc(s, p, e); KillsMine(s, p, e); KillsTouch(s, c, p, e);
    }
  }

  // ---------------------------------------------------------------------------
  // What a step leaves alone, by the locks its thread holds
  // ---------------------------------------------------------------------------

  /** A step of p from s to s', with what is known of it. */
  ghost predicate Moved(s: State, c: nat, p: nat, e: Effect, s': State) {
    Ready(s, c, p) && Facts(s, p, e) && Apply(s, c, p, e, s')
  }

  /** The child that allocproc has just taken has no parent yet. */
  lemma NewChild(s: State, c: nat, p: nat)
    requires Ready(s, c, p) && s.procs[p].pc.ForkUsed?
    ensures Creating(s, p, s.procs[p].pc.i, -1, Idle)
  {
    Running(s, c, p);
  }

  /** Where parents change and zombies come and go. */
  ghost predicate FamilyPc(pc: Pc) { pc.ExitRep? || pc.ExitSet? || pc.WaitHave? || pc.ForkWSet? }

  lemma FamilyChange(s: State, c: nat, p: nat, e: Effect, s': State, j: nat)
    requires Moved(s, c, p, e, s') && j < |s.procs| && !FamilyPc(s.procs[p].pc)
    ensures s'.procs[j].parent == s.procs[j].parent && (s'.procs[j].st == ZOMBIE <==> s.procs[j].st == ZOMBIE)
  {
    if s.procs[p].pc.ForkUsed? { NewChild(s, c, p); }
    if s.procs[p].pc.ForkPid2? { UnusedChild(s, c, p); }
    if s.procs[p].pc.ForkLSet? { CreatingChild(s, c, p); }
    Fields(s, c, p, e, s', j);
    hide Ready, Apply, TouchesOk, HoldsOk, PcOk;
  }

  /** Only a thread with wait_lock changes a parent or makes or frees a zombie. */
  lemma FamilyFrame(s: State, c: nat, p: nat, e: Effect, s': State, j: nat)
    requires Moved(s, c, p, e, s') && j < |s.procs|
    requires !In(WaitLock, HeldAt(p, s.procs[p].pc))
    ensures s'.procs[j].parent == s.procs[j].parent && (s'.procs[j].st == ZOMBIE <==> s.procs[j].st == ZOMBIE)
  {
    hide Facts, Apply, Base, PlacesOk, FamilyOk;
    assert !FamilyPc(s.procs[p].pc);
    FamilyChange(s, c, p, e, s', j);
  }

  /** Only a thread with the lock of channel `ch` comes to wait on it. */
  lemma WaitingFrame(s: State, c: nat, p: nat, e: Effect, s': State, j: nat, ch: Chan)
    requires Moved(s, c, p, e, s') && j < |s.procs| && Waiting(s'.procs[j], ch)
    ensures Waiting(s.procs[j], ch) ||
            (j == p && s.procs[p].pc.SleepRel? && s.procs[p].pc.ch == ch && In(LockFor(ch), HeldAt(p, s.procs[p].pc)))
  {
    assert PcOk(s, p, s.procs[p].pc) by { hide At, Kin, OnOk; Running(s, c, p); }
    Fields(s, c, p, e, s', j);
    hide Ready, Apply, HoldsOk, TouchesOk;
  }

  /** Only a thread with its inner lock changes a sleep lock, and then only between itself and nobody. */
  lemma SleepLockFrame(s: State, c: nat, p: nat, e: Effect, s': State, l: nat)
    requires Moved(s, c, p, e, s') && SleepLocksOk(s) && l < |s.sleeplocks|
    ensures s'.sleeplocks[l] == s.sleeplocks[l] || In(Inner(l), HeldAt(p, s.procs[p].pc))
    ensures s'.sleeplocks[l].owner != s.sleeplocks[l].owner ==>
      (s.sleeplocks[l].owner == p && s'.sleeplocks[l].owner == -1) ||
          (s.sleeplocks[l].owner == -1 && s'.sleeplocks[l].owner == p)
  {
    if s.procs[p].pc.SlRelSet? {
      assert At(s, p, Core(s.procs[p].pc)) by { hide PcOk, Kin, OnOk; Running(s, c, p); }
    }
    hide Ready, LockStep, HoldsOk, TouchesOk, Touch;
  }

  /** Only a thread with Monitor(m) changes the conditions under it. */
  lemma CondFrame(s: State, c: nat, p: nat, e: Effect, s': State, m: nat, k: nat)
    requires Moved(s, c, p, e, s') && !In(Monitor(m), HeldAt(p, s.procs[p].pc))
    ensures ChanCond(m, k) in s'.conds <==> ChanCond(m, k) in s.conds
  {
    hide Ready, LockStep, HoldsOk, TouchesOk, Touch, PcOk;
  }

  /** Only a thread with its lock changes an UNUSED process. */
  lemma UnusedFrame(s: State, c: nat, p: nat, e: Effect, s': State, i: nat)
    requires Moved(s, c, p, e, s') && i < |s.procs| && s.procs[i].st == UNUSED && i != p
    requires !In(PLock(i), HeldAt(p, s.procs[p].pc))
    ensures s'.procs[i].st == UNUSED
  {
    Fields(s, c, p, e, s', i);
    if s.procs[p].pc.ForkUsed? || s.procs[p].pc.ForkWSet? || s.procs[p].pc.ForkLSet? { CreatingChild(s, c, p); }
    hide Ready, Apply, TouchesOk, HoldsOk, Mine;
  }

  /** The child of a fork under way is USED and names its forker. */
  lemma CreatingChild(s: State, c: nat, p: nat)
    requires Ready(s, c, p)
    requires var pc := s.procs[p].pc; pc.ForkUsed? || pc.ForkWSet? || pc.ForkLSet?
    ensures var i := s.procs[p].pc.i; i < |s.procs| && s.procs[i].st == USED && s.procs[i].forker == p
  {
    Running(s, c, p);
  }

  /** Only the forker changes a process that is being created. */
  lemma CreatingFrame(s: State, c: nat, p: nat, e: Effect, s': State, i: nat)
    requires Moved(s, c, p, e, s') && i < |s.procs| && s.procs[i].st == USED && s.procs[i].forker != p &&
            s.procs[i].parent != p && i != p
    ensures var r, r' := s.procs[i], s'.procs[i];
      r'.st == r.st && r'.forker == r.forker && r'.parent == r.parent && r'.pc == r.pc
  {
    if s.procs[p].pc.ForkUsed? || s.procs[p].pc.ForkWSet? || s.procs[p].pc.ForkLSet? { CreatingChild(s, c, p); }
    if s.procs[p].pc.ForkPid2? { UnusedChild(s, c, p); }
    Fields(s, c, p, e, s', i);
    hide Ready, Apply, TouchesOk, HoldsOk, Mine, HeldAt;
  }

  lemma UnusedChild(s: State, c: nat, p: nat)
    requires Ready(s, c, p) && (s.procs[p].pc.ForkPid? || s.procs[p].pc.ForkPid2?)
    ensures var i := s.procs[p].pc.i; i < |s.procs| && s.procs[i].st == UNUSED && i != p
  {
    Running(s, c, p);
  }

  /** A process other than p and the one p touches keeps its record. */
  lemma Fields(s: State, c: nat, p: nat, e: Effect, s': State, i: nat)
    requires c < |s.cpus| && p < |s.procs| && Apply(s, c, p, e, s') && i < |s.procs|
    ensures i != p && i != e.who ==> s'.procs[i] == s.procs[i]
    ensures i != p && i == e.who ==> s'.procs[i] == e.them
    ensures i == p ==> s'.procs[i] == Kept(s.cpus[c], c, e)
  {
    hide LockStep;
  }
}
