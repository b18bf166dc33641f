/**
  Handlers of device interrupts: they change conditions and call wakeup on top of whatever their CPU
  was running, a process or the scheduler.
 */
module ProcHandlers {
  import opened ProcMachine
  import opened ProcInvariant
  import opened ProcQuiet

  /** A handler on CPU c, which has begun, takes a step. */
  ghost predicate Handling(s: State, c: nat, s': State) {
    c < |s.cpus| && !s.cpus[c].intr.NoIntr? && IntrStep(s, c, s')
  }

  function IntrOp(s: State, c: nat, h: Intr): (op: LockOp)
    requires c < |s.cpus|
  {
    match h
    case IAcq(m) => Take(Monitor(m))
    case INext(_, _, i, _) => if i >= |s.procs| || i == s.cpus[c].proc then NoOp else Take(PLock(i))
    case IHave(_, _, i, _) => Drop(PLock(i))
    case _ => NoOp
  }

  /** The lock operation of a step that leads from h to h'. */
  function OpTo(s: State, c: nat, h: Intr, h': Intr): (op: LockOp)
    requires c < |s.cpus|
  {
    if h.IHold? && h'.NoIntr? then Drop(Monitor(h.m)) else IntrOp(s, c, h)
  }

  /** What a step of a handler does to its CPU. */
  lemma HandlerCpu(s: State, c: nat, s': State)
    requires Handling(s, c, s')
    ensures |s'.cpus| == |s.cpus| && s'.cpus == s.cpus[c := s'.cpus[c]]
    ensures s'.cpus[c].thr == s.cpus[c].thr && s'.cpus[c].proc == s.cpus[c].proc
    ensures LockStep(s, c, OpTo(s, c, s.cpus[c].intr, s'.cpus[c].intr), s')
    ensures s'.cpus[c].intr.NoIntr? ==> s.cpus[c].intr.IHold?
  {
  }

  /** A handler goes from place to place of its program. */
  ghost predicate Goes(s: State, c: nat, h: Intr, h': Intr)
    requires c < |s.cpus|
  {
    match h
    case NoIntr => false
    case IAcq(m) => h' == IHold(m, {})
    case IHold(m, due) => (h'.NoIntr? && due == {}) || (h'.IHold? && h'.m == m) || (h'.INext? && h'.m == m && h'.i == 0)
    case INext(m, k, i, due) =>
      if i >= |s.procs| then h' == IHold(m, due)
      else if i == s.cpus[c].proc then h' == INext(m, k, i + 1, due)
      else h' == IHave(m, k, i, due)
    case IHave(m, k, i, due) => i < |s.procs| && h' == INext(m, k, i + 1, due)
  }

  lemma HandlerGoes(s: State, c: nat, s': State)
    requires Handling(s, c, s') && |s'.cpus| == |s.cpus|
    ensures Goes(s, c, s.cpus[c].intr, s'.cpus[c].intr)
  {
  }

  /** The wakeups a handler owes, and the condition it may have made true. */
  lemma HandlerOwes(s: State, c: nat, s': State, ch: Chan)
    requires Handling(s, c, s') && |s'.cpus| == |s.cpus| && ch.ChanCond?
    requires IntrOwes(s.cpus[c].intr, ch) || ch !in s.conds
    ensures var h := s.cpus[c].intr;
      IntrOwes(s'.cpus[c].intr, ch) || ch !in s'.conds || (h.INext? && ch == ChanCond(h.m, h.k) && h.i >= |s.procs|)
  {
  }

  lemma HandlerConds(s: State, c: nat, s': State)
    requires Handling(s, c, s')
    ensures CondsHeld(s, c, s')
  {
  }

  /** A handler wakes the process whose lock it holds, if that sleeps on its condition. */
  lemma HandlerProcs(s: State, c: nat, s': State)
    requires Handling(s, c, s')
    ensures var h := s.cpus[c].intr;
      if h.IHave? && h.i < |s.procs| && s.procs[h.i].st == SLEEPING && s.procs[h.i].chan == ChanCond(h.m, h.k) then
        s'.procs == s.procs[h.i := s.procs[h.i].(st := RUNNABLE)]
      else s'.procs == s.procs
  {
  }

  lemma HandlerQuiet(s: State, c: nat, s': State)
    requires Handling(s, c, s')
    ensures Quiet(s, c, s')
  {
    HandlerProcs(s, c, s');
    HandlerConds(s, c, s');
    HandlerCpu(s, c, s');
  }

  lemma HandlerLocks(s: State, c: nat, s': State)
    requires Base(s) && Handling(s, c, s') && Quiet(s, c, s')
    ensures LocksOk(s')
  {
    hide PcsOk, ThreadsOk, HeldAt, IntrStep, Quiet;
    HandlerCpu(s, c, s');
    HandlerGoes(s, c, s');
    assert IntrOk(s, c);
    forall d | 0 <= d < |s'.cpus| ensures HeldBy(s', s'.cpus[d].thr) == HeldBy(s, s.cpus[d].thr) {
      QuietHeld(s, c, s', s.cpus[d].thr);
    }
    LocksMoved(s, c, OpTo(s, c, s.cpus[c].intr, s'.cpus[c].intr), s');
  }

  lemma HandlerThreads(s: State, c: nat, s': State)
    requires Base(s) && Handling(s, c, s')
    ensures ThreadsOk(s')
  {
    hide PcsOk, LocksOk, IntrsOk, IntrStep, LockStep;
    HandlerCpu(s, c, s');
    HandlerProcs(s, c, s');
    forall d | 0 <= d < |s'.cpus| ensures CpuOk(s', d) {
      assert CpuOk(s, d);
    }
    forall q | 0 <= q < |s'.procs| ensures ProcOk(s', q) {
      assert ProcOk(s, q);
    }
  }

  lemma HandlerIe(s: State, c: nat, s': State)
    requires Handling(s, c, s') && |s'.cpus| == |s.cpus| && !s.cpus[c].ie &&
            s.cpus[c].noff == Count(HeldIn(s.cpus[c].intr))
    ensures s'.cpus[c].intr.NoIntr? ==> s'.cpus[c].noff == 0
    ensures !s'.cpus[c].intr.NoIntr? ==> !s'.cpus[c].ie
  {
  }

  lemma HandlerIntrs(s: State, c: nat, s': State)
    requires Base(s) && Handling(s, c, s') && Quiet(s, c, s')
    ensures IntrsOk(s')
  {
    hide PcsOk, HeldAt, IntrStep, SameButState, CondsHeld, LockStep;
    HandlerCpu(s, c, s');
    HandlerGoes(s, c, s');
    assert IntrOk(s, c) && s.cpus[c].noff == Count(HeldOn(s, c));
    HandlerIe(s, c, s');
    forall d | 0 <= d < |s'.cpus| ensures IntrOk(s', d) {
      assert IntrOk(s, d);
      QuietHeld(s, c, s', s.cpus[d].thr);
    }
  }

  lemma HandlerFlags(s: State, c: nat, s': State)
    requires Base(s) && FlagsOk(s) && Handling(s, c, s')
    ensures FlagsOk(s')
  {
    hide PcsOk, LocksOk, IntrStep, LockStep;
    HandlerCpu(s, c, s');
    HandlerProcs(s, c, s');
    assert IntrOk(s, c);
    forall q | 0 <= q < |s'.procs| ensures FlagOk(s', q) {
      assert FlagOk(s, q) && ProcOk(s, q);
    }
    hide HeldAt;
  }

  /** The process that a handler passes over does not wait: it is the one it interrupted. */
  lemma InterruptedAwake(s: State, c: nat, ch: Chan)
    requires Base(s) && c < |s.cpus| && !s.cpus[c].intr.NoIntr? && 0 <= s.cpus[c].proc < |s.procs|
    ensures !Waiting(s.procs[s.cpus[c].proc], ch)
  {
    hide PcsOk, LocksOk;
    assert IntrOk(s, c) && CpuOk(s, c);
    assert ProcOk(s, s.cpus[c].proc);
  }

  /** A process whose lock the handler holds is not on its way to sleep. */
  lemma NotFallingAsleep(s: State, c: nat)
    requires Base(s) && c < |s.cpus| && s.cpus[c].intr.IHave? && s.cpus[c].intr.i < |s.procs|
    ensures !s.procs[s.cpus[c].intr.i].pc.SleepSet?
  {
    hide PcsOk;
    var i := s.cpus[c].intr.i;
    assert ProcOk(s, i) && IntrOk(s, c);
    if s.procs[i].pc.SleepSet? {
      var d := s.procs[i].on;
      assert IntrOk(s, d);
      assert In(PLock(i), HeldOn(s, d)) && In(PLock(i), HeldOn(s, c));
      Excludes(s, c, d, PLock(i));
      assert false;
    }
  }

  /** The loop of wakeup in a handler. */
  lemma MyHandler(s: State, c: nat, s': State)
    requires Base(s) && Handling(s, c, s') && HandlerOk(s, c) && Quiet(s, c, s')
    ensures HandlerOk(s', c)
  {
    hide Base, IntrStep, Quiet, LockStep;
    var h := s.cpus[c].intr;
    HandlerCpu(s, c, s');
    HandlerGoes(s, c, s');
    if h.INext? || h.IHave? {
      var ch := ChanCond(h.m, h.k);
      QuietNoneWaiting(s, c, s', ch, h.i);
      HandlerProcs(s, c, s');
      if h.IHave? {
        NotFallingAsleep(s, c);
      } else if h.i < |s.procs| && h.i == s.cpus[c].proc {
        InterruptedAwake(s, c, ch);
      }
    }
  }

  lemma HandlerHandlers(s: State, c: nat, s': State)
    requires Base(s) && HandlersOk(s) && Handling(s, c, s') && Quiet(s, c, s')
    ensures HandlersOk(s')
  {
    hide Base, IntrStep, Quiet, LockStep;
    HandlerCpu(s, c, s');
    forall d | 0 <= d < |s'.cpus| ensures HandlerOk(s', d) {
      assert HandlerOk(s, d);
      if d == c {
        MyHandler(s, c, s');
      } else {
        var h := s.cpus[d].intr;
        if h.INext? || h.IHave? {
          QuietNoneWaiting(s, c, s', ChanCond(h.m, h.k), h.i);
        }
      }
    }
  }

  /** A waker on another CPU stays one. */
  lemma OtherWaker(s: State, c: nat, s': State, ch: Chan)
    requires Base(s) && Handling(s, c, s') && Quiet(s, c, s') && WakerOn(s, ch) && s.locks[LockFor(ch)] != c
    ensures WakerOn(s', ch)
  {
    hide PcsOk, ThreadsOk, IntrStep, Quiet, OwesOn;
    HandlerCpu(s, c, s');
    HandlerGoes(s, c, s');
    var l, d := LockFor(ch), s.locks[LockFor(ch)];
    assert IntrOk(s, c);
    var op := OpTo(s, c, s.cpus[c].intr, s'.cpus[c].intr);
    if op.Drop? {
      assert In(op.l, HeldOn(s, c));
    }
    QuietOwes(s, c, s', d, ch);
    hide LocksOk, IntrsOk;
  }

  /** The handler owes a wakeup for a condition that holds, if anybody waits for it. */
  lemma MyWaker(s: State, c: nat, s': State, p: nat, ch: Chan)
    requires Base(s) && Handling(s, c, s') && HandlerOk(s, c) && Quiet(s, c, s') && LocksOk(s') && p < |s.procs|
    requires Waiting(s.procs[p], ch) && ch.ChanCond? && ch in s'.conds
    requires IntrOwes(s.cpus[c].intr, ch) || ch !in s.conds
    ensures WakerOn(s', ch)
  {
    hide Base, IntrStep, Quiet;
    HandlerCpu(s, c, s');
    HandlerGoes(s, c, s');
    HandlerOwes(s, c, s', ch);
    var h := s.cpus[c].intr;
    assert IntrOwes(s'.cpus[c].intr, ch);
    assert In(LockFor(ch), HeldOn(s', c));
  }

  lemma HandlerWakeups(s: State, c: nat, s': State)
    requires Base(s) && HandlersOk(s) && WakeupsOk(s) && Handling(s, c, s') && Quiet(s, c, s') && LocksOk(s')
    ensures WakeupsOk(s')
  {
    hide Base, IntrStep, Waiting, Happened, LocksOk;
    assert HandlerOk(s, c);
    forall p, ch | 0 <= p < |s'.procs| && Waiting(s'.procs[p], ch) && Happened(s', p, ch) ensures WakerOn(s', ch) {
      QuietWaiting(s, c, s', p, ch);
      if ch in s'.conds && ch !in s.conds {
        MyWaker(s, c, s', p, ch);
      } else {
        QuietHappened(s, c, s', p, ch);
        assert WakerOn(s, ch);
        if s.locks[LockFor(ch)] == c {
          HappensTo(s', p, ch);
          MyWaker(s, c, s', p, ch);
        } else {
          OtherWaker(s, c, s', ch);
        }
      }
    }
  }

  lemma HappensTo(s: State, p: nat, ch: Chan)
    requires Happened(s, p, ch) && ch.ChanCond?
    ensures ch in s.conds
  {
  }

  lemma HandlerKept(s: State, c: nat, s': State)
    requires Inv(s) && Handling(s, c, s')
    ensures Inv(s')
  {
    hide PcsOk, ThreadsOk, LocksOk, IntrsOk, PlacesOk, FamilyOk, PidsOk, SleepLocksOk, HandlersOk, FlagsOk, WakeupsOk;
    hide IntrStep, Quiet;
    HandlerQuiet(s, c, s');
    QuietPcs(s, c, s');
    HandlerLocks(s, c, s');
    HandlerThreads(s, c, s');
    HandlerIntrs(s, c, s');
    QuietPlaces(s, c, s');
    QuietData(s, c, s');
    HandlerHandlers(s, c, s');
    HandlerFlags(s, c, s');
    HandlerWakeups(s, c, s');
  }
}
