/**
  The spinlocks of `kernel/spinlock.c`, one memory access at a time, on any number of CPUs that
  take interrupts whenever they are enabled.

  An interrupt suspends what the CPU is doing and starts a handler, which may itself acquire and
  release locks.  The machine is shown to refine the one in which acquire and release are atomic.
 */
module Spinlock {

  /** `owner` is bookkeeping of the proof: the CPU between the swap of acquire and the store of release. */
  datatype Lock = Lock(locked: bool, cpu: int, owner: int)

  /** push_off is called on its own, or by acquire of lock l. */
  datatype For = Plain | Acquiring(l: nat)

  datatype Pc =
    | Run
    | Push1(why: For)                            // push_off: before intr_get
    | Push2(old_: bool, why: For)                // before intr_off
    | Push3(old_: bool, why: For)                // before the update of intena and noff
    | Test1(l: nat) | Test2(l: nat)              // acquire: holding reads locked, then cpu
    | Spin(l: nat)                               // before the atomic swap
    | SetCpu(l: nat)                             // the swap found the lock free
    | Rel1(l: nat) | Rel2(l: nat)                // release: holding reads locked, then cpu
    | ClearCpu(l: nat) | ClearLocked(l: nat)     // before cpu = 0, before the store to locked
    | Pop                                        // before pop_off
    | Panic

  /** What an interrupt suspended, and whether interrupts were on when its outermost push_off was called. */
  datatype Saved = Nothing | Frame(pc: Pc, before: bool)

  /** `held` and `plain` are what the running activity has acquired and pushed; `before` is as in Saved. */
  datatype Cpu = Cpu(intr: bool, noff: int, intena: bool, pc: Pc, held: set<nat>, plain: nat, before: bool,
      saved: Saved)

  datatype State = State(locks: seq<Lock>, cpus: seq<Cpu>)

  // ---------------------------------------------------------------------------
  // Steps
  // ---------------------------------------------------------------------------

  /** An interrupt is taken, which turns interrupts off, or its handler returns, which turns them on. */
  ghost predicate Traps(r: Cpu, r': Cpu) {
    || (r.intr && r' == r.(intr := false, pc := Run, before := false, saved := Frame(r.pc, r.before)))
    || (r.saved.Frame? && r.pc.Run? && r.noff == 0 &&
        r' == r.(intr := true, pc := r.saved.pc, before := r.saved.before, saved := Nothing))
  }

  /** A call of push_off; the outermost one remembers the interrupt state. */
  function Starts(r: Cpu, why: For): (r': Cpu) {
    r.(pc := Push1(why), before := if r.noff == 0 then r.intr else r.before)
  }

  /** What kernel code does outside the lock operations: it calls one, or turns interrupts on or off. */
  ghost predicate Chooses(r: Cpu, l: nat, r': Cpu) {
    && r.pc.Run?
    && (|| (l !in r.held && r' == Starts(r, Acquiring(l)))
        || r' == Starts(r, Plain)
        || (l in r.held && r' == r.(pc := Rel1(l)))
        || (r.plain > 0 && r' == r.(pc := Pop, plain := r.plain - 1))
        || (r.noff == 0 && r.saved.Nothing? && r' == r.(intr := !r.intr)))
  }

  /** push_off and pop_off */
  ghost predicate Nests(r: Cpu, r': Cpu) {
    match r.pc
    case Push1(why) => r' == r.(pc := Push2(r.intr, why))
    case Push2(o, why) => r' == r.(intr := false, pc := Push3(o, why))
    case Push3(o, why) =>
      var s := r.(intena := if r.noff == 0 then o else r.intena, noff := r.noff + 1);
      r' == (if why.Plain? then s.(pc := Run, plain := r.plain + 1) else s.(pc := Test1(why.l)))
    case Pop =>
      if r.intr || r.noff < 1 then r' == r.(pc := Panic)
      else r' == r.(pc := Run, noff := r.noff - 1, intr := r.noff == 1 && r.intena)
    case _ => false
  }

  /** acquire of lock l by CPU c, after push_off */
  ghost predicate Acquires(c: nat, l: nat, r: Cpu, k: Lock, r': Cpu, k': Lock) {
    match r.pc
    case Test1(x) => x == l && k' == k && r' == r.(pc := if k.locked then Test2(l) else Spin(l))
    case Test2(x) => x == l && k' == k && r' == r.(pc := if k.cpu == c then Panic else Spin(l))
    case Spin(x) =>
      x == l &&
      if k.locked then k' == k && r' == r
      else k' == Lock(true, k.cpu, c) && r' == r.(pc := SetCpu(l))
    case SetCpu(x) => x == l && k' == k.(cpu := c) && r' == r.(pc := Run, held := r.held + {l})
    case _ => false
  }

  /** release of lock l by CPU c, before pop_off */
  ghost predicate Releases(c: nat, l: nat, r: Cpu, k: Lock, r': Cpu, k': Lock) {
    match r.pc
    case Rel1(x) => x == l && k' == k && r' == r.(pc := if k.locked then Rel2(l) else Panic)
    case Rel2(x) => x == l && k' == k && r' == r.(pc := if k.cpu == c then ClearCpu(l) else Panic)
    case ClearCpu(x) => x == l && k' == k.(cpu := -1) && r' == r.(pc := ClearLocked(l))
    case ClearLocked(x) => x == l && k' == Lock(false, k.cpu, -1) && r' == r.(pc := Pop, held := r.held - {l})
    case _ => false
  }

  /** One step of CPU c with lock l, whose records are r and k. */
  ghost predicate Local(c: nat, l: nat, r: Cpu, k: Lock, r': Cpu, k': Lock) {
    || (k' == k && (Traps(r, r') || Chooses(r, l, r') || Nests(r, r')))
    || Acquires(c, l, r, k, r', k') || Releases(c, l, r, k, r', k')
  }

  ghost predicate Step(s: State, c: nat, l: nat, s': State) {
    && c < |s.cpus| && l < |s.locks| && |s'.cpus| == |s.cpus| && |s'.locks| == |s.locks|
    && s'.cpus == s.cpus[c := s'.cpus[c]] && s'.locks == s.locks[l := s'.locks[l]]
    && Local(c, l, s.cpus[c], s.locks[l], s'.cpus[c], s'.locks[l])
  }

  ghost predicate Initial(s: State) {
    && (forall l :: 0 <= l < |s.locks| ==> s.locks[l] == Lock(false, -1, -1))
    && (forall c :: 0 <= c < |s.cpus| ==> exists intr, ena :: s.cpus[c] == Cpu(intr, 0, ena, Run, {}, 0, intr, Nothing))
  }

  // ---------------------------------------------------------------------------
  // The invariant of one CPU
  // ---------------------------------------------------------------------------

  /** The push_off of an acquire or the pop_off of a release under way. */
  function Pending(pc: Pc): (k: nat) {
    if pc.Test1? || pc.Test2? || pc.Spin? || pc.SetCpu? || pc.Pop? then 1 else 0
  }

  /** Before intr_off a push_off has changed nothing, and knows the interrupt state. */
  ghost predicate PushOk(pc: Pc, noff: int, intr: bool, before: bool) {
    match pc
    case Push1(_) => noff == 0 ==> intr == before
    case Push2(o, _) => noff == 0 ==> intr == before && o == before
    case Push3(o, _) => !intr && (noff == 0 ==> o == before)
    case _ => true
  }

  /** What was suspended had interrupts on, so it is not inside a lock; and the handler has them off. */
  ghost predicate SavedOk(r: Cpu) {
    r.saved.Frame? ==>
      && (r.saved.pc.Run? || r.saved.pc.Push1? || r.saved.pc.Push2?) && PushOk(r.saved.pc, 0, true, r.saved.before)
      && !r.before && !r.intr
  }

  ghost predicate CountOk(r: Cpu) { r.noff == |r.held| + r.plain + Pending(r.pc) }

  /** Whom the lock operation under way is for. */
  ghost predicate HeldOk(pc: Pc, held: set<nat>) {
    && (pc.Push1? || pc.Push2? || pc.Push3? ==> pc.why.Acquiring? ==> pc.why.l !in held)
    && (pc.Test1? || pc.Test2? || pc.Spin? || pc.SetCpu? ==> pc.l !in held)
    && (pc.Rel1? || pc.Rel2? || pc.ClearCpu? || pc.ClearLocked? ==> pc.l in held)
  }

  ghost predicate CpuOk(r: Cpu) {
    && !r.pc.Panic?
    && CountOk(r) && HeldOk(r.pc, r.held) && SavedOk(r)
    && (r.noff > 0 ==> !r.intr && r.intena == r.before)
    && PushOk(r.pc, r.noff, r.intr, r.before)
  }

  // ---------------------------------------------------------------------------
  // The invariant between CPUs and locks
  // ---------------------------------------------------------------------------

  /** CPU r has lock l: it is between the swap of acquire and the store of release. */
  ghost predicate Owns(r: Cpu, l: nat) { l in r.held || (r.pc.SetCpu? && r.pc.l == l) }

  /** ... and its name is in the cpu field. */
  ghost predicate Named(r: Cpu, l: nat) { l in r.held && !(r.pc.ClearLocked? && r.pc.l == l) }

  ghost predicate PairOk(c: nat, r: Cpu, l: nat, k: Lock) {
    && (Owns(r, l) <==> k.owner == c)
    && (Named(r, l) <==> k.cpu == c)
  }

  ghost predicate LockOk(k: Lock, n: nat) { (k.locked <==> k.owner != -1) && -1 <= k.owner < n && -1 <= k.cpu < n &&
                         (k.cpu != -1 ==> k.cpu == k.owner) }

  ghost predicate Inv(s: State) {
    && (forall c :: 0 <= c < |s.cpus| ==> CpuOk(s.cpus[c]))
    && (forall l :: 0 <= l < |s.locks| ==> LockOk(s.locks[l], |s.cpus|))
    && (forall c, l :: 0 <= c < |s.cpus| && 0 <= l < |s.locks| ==> PairOk(c, s.cpus[c], l, s.locks[l]))
    && (forall c, l :: 0 <= c < |s.cpus| && l in s.cpus[c].held ==> l < |s.locks|)
  }

  // ---------------------------------------------------------------------------
  // Every step keeps it
  // ---------------------------------------------------------------------------

  /** With interrupts on, nothing is held and no lock operation has got past intr_off. */
  lemma IntrOn(r: Cpu)
    requires CpuOk(r) && r.intr
    ensures r.noff == 0 && r.held == {} && r.plain == 0 && (r.pc.Run? || r.pc.Push1? || r.pc.Push2?)
  {
  }

  lemma TrapsKept(r: Cpu, r': Cpu)
    requires CpuOk(r) && Traps(r, r')
    ensures CpuOk(r') && r'.held == r.held && !r.pc.SetCpu? && !r.pc.ClearLocked? && !r'.pc.SetCpu? &&
            !r'.pc.ClearLocked?
  {
    if r.intr { IntrOn(r); }
    Empty(r);
  }

  lemma Empty(r: Cpu)
    requires CountOk(r) && r.noff == 0
    ensures r.held == {} && r.plain == 0 && Pending(r.pc) == 0
  {
  }

  lemma ChoosesKept(r: Cpu, l: nat, r': Cpu)
    requires CpuOk(r) && Chooses(r, l, r')
    ensures CpuOk(r') && r'.held == r.held && !r'.pc.SetCpu? && !r'.pc.ClearLocked?
  {
  }

  lemma NestsKept(r: Cpu, r': Cpu)
    requires CpuOk(r) && Nests(r, r')
    ensures CpuOk(r') && r'.held == r.held && !r'.pc.SetCpu? && !r'.pc.ClearLocked?
  {
  }

  lemma AcquiresKept(c: nat, l: nat, n: nat, r: Cpu, k: Lock, r': Cpu, k': Lock)
    requires c < n && CpuOk(r) && LockOk(k, n) && PairOk(c, r, l, k) && Acquires(c, l, r, k, r', k')
    ensures CpuOk(r') && LockOk(k', n) && PairOk(c, r', l, k')
  {
  }

  lemma ReleasesKept(c: nat, l: nat, n: nat, r: Cpu, k: Lock, r': Cpu, k': Lock)
    requires c < n && CpuOk(r) && LockOk(k, n) && PairOk(c, r, l, k) && Releases(c, l, r, k, r', k')
    ensures CpuOk(r') && LockOk(k', n) && PairOk(c, r', l, k')
  {
  }

  lemma LocalKept(c: nat, l: nat, n: nat, r: Cpu, k: Lock, r': Cpu, k': Lock)
    requires c < n && CpuOk(r) && LockOk(k, n) && PairOk(c, r, l, k) && Local(c, l, r, k, r', k')
    ensures CpuOk(r') && LockOk(k', n) && PairOk(c, r', l, k')
  {
    hide CpuOk, LockOk, Traps, Chooses, Nests, Acquires, Releases;
    if k' == k && Traps(r, r') {
      TrapsKept(r, r');
    } else if k' == k && Chooses(r, l, r') {
      ChoosesKept(r, l, r');
      ChoosesFrom(r, l, r');
    } else if k' == k && Nests(r, r') {
      NestsKept(r, r');
      NestsFrom(r, r');
    } else if Acquires(c, l, r, k, r', k') {
      AcquiresKept(c, l, n, r, k, r', k');
    } else {
      ReleasesKept(c, l, n, r, k, r', k');
    }
  }

  lemma ChoosesFrom(r: Cpu, l: nat, r': Cpu)
    requires Chooses(r, l, r')
    ensures !r.pc.SetCpu? && !r.pc.ClearLocked?
  {
  }

  lemma NestsFrom(r: Cpu, r': Cpu)
    requires Nests(r, r')
    ensures !r.pc.SetCpu? && !r.pc.ClearLocked?
  {
  }

  /** A step changes nothing between its lock and another CPU ... */
  lemma OtherCpu(c: nat, l: nat, n: nat, r: Cpu, k: Lock, r': Cpu, k': Lock, d: nat, x: Cpu)
    requires c < n && CpuOk(r) && LockOk(k, n) && PairOk(c, r, l, k) && Local(c, l, r, k, r', k') && d != c &&
            PairOk(d, x, l, k)
    ensures PairOk(d, x, l, k')
  {
    hide Traps, Chooses, Nests;
  }

  /** ... nor between its CPU and another lock. */
  lemma OtherLock(c: nat, l: nat, r: Cpu, k: Lock, r': Cpu, k': Lock, m: nat, y: Lock)
    requires CpuOk(r) && Local(c, l, r, k, r', k') && m != l && PairOk(c, r, m, y)
    ensures PairOk(c, r', m, y) && (m in r'.held ==> m in r.held)
  {
    hide CpuOk;
    if k' == k && Traps(r, r') {
      TrapsKept(r, r');
    } else if k' == k && Chooses(r, l, r') {
      ChoosesKept(r, l, r');
    } else if k' == k && Nests(r, r') {
      NestsKept(r, r');
    }
  }

  lemma HeldInRange(c: nat, l: nat, r: Cpu, k: Lock, r': Cpu, k': Lock)
    requires Local(c, l, r, k, r', k')
    ensures r'.held <= r.held + {l}
  {
  }

  lemma InvKept(s: State, c: nat, l: nat, s': State)
    requires Inv(s) && Step(s, c, l, s')
    ensures Inv(s')
  {
    hide CpuOk, LockOk, PairOk, Local;
    var r, k, r', k' := s.cpus[c], s.locks[l], s'.cpus[c], s'.locks[l];
    assert PairOk(c, r, l, k);
    LocalKept(c, l, |s.cpus|, r, k, r', k');
    HeldInRange(c, l, r, k, r', k');
    forall d, m | 0 <= d < |s'.cpus| && 0 <= m < |s'.locks| ensures PairOk(d, s'.cpus[d], m, s'.locks[m]) {
      assert PairOk(d, s.cpus[d], m, s.locks[m]);
      if d != c && m == l {
        OtherCpu(c, l, |s.cpus|, r, k, r', k', d, s.cpus[d]);
      } else if d == c && m != l {
        OtherLock(c, l, r, k, r', k', m, s.locks[m]);
      }
    }
  }

  lemma InvInitial(s: State)
    requires Initial(s)
    ensures Inv(s)
  {
  }

  // ---------------------------------------------------------------------------
  // Runs, and what holds in all their states
  // ---------------------------------------------------------------------------

  ghost predicate Next(s: State, s': State) { exists c, l :: Step(s, c, l, s') }

  ghost predicate Runs(states: seq<State>) {
    |states| > 0 && Initial(states[0]) && forall i :: 0 <= i < |states| - 1 ==> Next(states[i], states[i + 1])
  }

  lemma {:induction false} RunInv(states: seq<State>, i: nat)
    requires Runs(states) && i < |states|
    ensures Inv(states[i])
  {
    hide Inv, Step, Initial;
    if i == 0 {
      InvInitial(states[0]);
    } else {
      RunInv(states, i - 1);
      assert Next(states[i - 1], states[i - 1 + 1]);
      var c, l :| Step(states[i - 1], c, l, states[i]);
      InvKept(states[i - 1], c, l, states[i]);
    }
  }

  /** Two CPUs never hold a lock at once; while one does, its interrupts are off; and no panic is reached. */
  lemma MutualExclusion(s: State, c: nat, d: nat, l: nat)
    requires Inv(s) && c < |s.cpus| && d < |s.cpus| && l in s.cpus[c].held && l in s.cpus[d].held
    ensures c == d && !s.cpus[c].intr && s.cpus[c].noff > 0 && !s.cpus[c].pc.Panic?
  {
    assert PairOk(c, s.cpus[c], l, s.locks[l]) && PairOk(d, s.cpus[d], l, s.locks[l]);
    assert CpuOk(s.cpus[c]);
  }

  /** holding, whose two reads may be apart, tells a CPU outside the lock operations exactly whether it has the lock. */
  lemma HoldingExact(s: State, c: nat, l: nat)
    requires Inv(s) && c < |s.cpus| && l < |s.locks| && s.cpus[c].pc.Run?
    ensures s.locks[l].cpu == c ==> s.locks[l].locked && l in s.cpus[c].held
    ensures l in s.cpus[c].held ==> s.locks[l].locked && s.locks[l].cpu == c
  {
    assert PairOk(c, s.cpus[c], l, s.locks[l]) && LockOk(s.locks[l], |s.cpus|);
  }

  /** The pop_off that undoes the outermost push_off leaves interrupts as that push_off found them. */
  lemma OutermostRestores(s: State, c: nat, l: nat, s': State)
    requires Inv(s) && Step(s, c, l, s') && s.cpus[c].pc.Pop? && s.cpus[c].noff == 1
    ensures s'.cpus[c].noff == 0 && s'.cpus[c].intr == s.cpus[c].before
  {
    assert CpuOk(s.cpus[c]);
  }

  /** `before` is the interrupt state at the outermost push_off, until the matching pop_off. */
  lemma BeforeIsKept(s: State, c: nat, l: nat, s': State)
    requires Inv(s) && Step(s, c, l, s') && s.cpus[c].noff > 0
    ensures s'.cpus[c].before == s.cpus[c].before && s'.cpus[c].saved == s.cpus[c].saved
  {
    assert CpuOk(s.cpus[c]);
  }

  // ---------------------------------------------------------------------------
  // Refinement: acquire and release seen as atomic
  // ---------------------------------------------------------------------------

  /** The abstract lock table: who has each lock. */
  ghost function Holders(s: State): (h: map<nat, nat>)
    requires Inv(s)
  {
    map l | 0 <= l < |s.locks| && s.locks[l].owner != -1 :: s.locks[l].owner
  }

  /** A step of the abstract machine: CPU c takes a free lock, drops one it has, or nothing happens. */
  ghost predicate AbstractStep(h: map<nat, nat>, c: nat, l: nat, h': map<nat, nat>) {
    || h' == h
    || (l !in h && h' == h[l := c])
    || (l in h && h[l] == c && h' == h - {l})
  }

  lemma Refines(s: State, c: nat, l: nat, s': State)
    requires Inv(s) && Step(s, c, l, s')
    ensures Inv(s') && AbstractStep(Holders(s), c, l, Holders(s'))
  {
    InvKept(s, c, l, s');
    var k, k' := s.locks[l], s'.locks[l];
    OwnerMoves(s, c, l, s');
    hide Step, Inv;
    assert forall m :: 0 <= m < |s.locks| && m != l ==> s'.locks[m] == s.locks[m];
    if k'.owner == k.owner {
      assert Holders(s') == Holders(s);
    } else if k.owner == -1 {
      assert Holders(s') == Holders(s)[l := c];
    } else {
      assert Holders(s') == Holders(s) - {l};
    }
  }

  lemma OwnerMoves(s: State, c: nat, l: nat, s': State)
    requires Inv(s) && Step(s, c, l, s')
    ensures var k, k' := s.locks[l], s'.locks[l];
      k'.owner == k.owner || (k.owner == -1 && k'.owner == c) || (k.owner == c && k'.owner == -1)
    ensures |s'.locks| == |s.locks| && forall m :: 0 <= m < |s.locks| && m != l ==> s'.locks[m] == s.locks[m]
  {
    assert PairOk(c, s.cpus[c], l, s.locks[l]) && CpuOk(s.cpus[c]) && LockOk(s.locks[l], |s.cpus|);
  }
}
